/**
 What is accepted gets done. A transaction that has its locks comes to the verdict
 that the committed tables give, error for error, unless a row it found missing has
 appeared since; and alone, every accepted command locks, computes and commits.
*/
module Progress {
  import opened Wrappers
  import opened Domain
  import opened Ledger
  import opened Projections
  import opened Invariants
  import opened TransferUseCase
  import HoldUseCase
  import opened Locality
  import opened Batches
  import opened Interleaving
  import opened DeadlockFreedom

  // ------------------------------------------------------ the lock plan

  function AsSet(locks: seq<Lock>): set<Lock> {
    set lock | lock in locks
  }

  /** All the locks the command takes, given the hold as read. */
  function Plan(tx: Tx): set<Lock> {
    AsSet(FirstLocks(tx.command)) +
    (if (tx.command.Void? || tx.command.Capture?) && tx.command.hold in tx.holds
     then AsSet(HoldAccountLocks(tx.command, tx.holds[tx.command.hold])) else {})
  }

  /** A hold row still to be locked is the only lock still to be taken. */
  ghost predicate HoldFirst(tx: Tx, pending: seq<Lock>) {
    forall i :: 0 <= i < |pending| && pending[i].HoldRow? ==>
      (tx.command.Void? || tx.command.Capture?) && pending == [HoldRow(tx.command.hold)] && tx.holds == map[]
  }

  /** What is held and what is still to be taken make up the plan. */
  ghost predicate PlanKept(tx: Tx) {
    match tx.phase
    case Locking(pending) => tx.held + AsSet(pending) == Plan(tx) && HoldFirst(tx, pending)
    case _ => true
  }

  ghost predicate AllPlanned(w: World) {
    forall i :: 0 <= i < |w.txs| ==> PlanKept(w.txs[i])
  }

  lemma NewPlanned(c: Command)
    ensures PlanKept(Tx(c, Locking(FirstLocks(c)), {}, map[], map[]))
  {
    hide SortIds, Endpoints, Keys, CheckInputs;
  }

  lemma LockedPlanned(db: Tables, tx: Tx)
    requires PlanKept(tx) && tx.phase.Locking? && tx.phase.pending != []
    ensures PlanKept(Locked(db, tx))
  {
    if tx.phase.pending[0].HoldRow? {
      HoldPlanned(db, tx);
    } else {
      hide PlanKept;
      NextPlanned(tx, Locked(db, tx));
    }
  }

  /** Taking a lock other than a hold's row moves it from what is still to be taken to what is held. */
  lemma NextPlanned(tx: Tx, tx': Tx)
    requires PlanKept(tx) && tx.phase.Locking? && tx.phase.pending != [] && !tx.phase.pending[0].HoldRow?
    requires tx'.command == tx.command && tx'.holds == tx.holds
    requires tx'.held == tx.held + {tx.phase.pending[0]} && tx'.phase == Locking(tx.phase.pending[1..])
    ensures PlanKept(tx')
  {
    hide FirstLocks, HoldAccountLocks;
    var pending := tx.phase.pending;
    assert pending == [pending[0]] + pending[1..];
    assert AsSet(pending) == {pending[0]} + AsSet(pending[1..]);
  }

  /** Once the hold is read, the locks of its accounts are what is still to be taken. */
  lemma HoldPlanned(db: Tables, tx: Tx)
    requires PlanKept(tx) && tx.phase.Locking? && tx.phase.pending != [] && tx.phase.pending[0].HoldRow?
    ensures PlanKept(Locked(db, tx))
  {
    var c := tx.command;
    assert tx.phase.pending == [HoldRow(c.hold)] && tx.holds == map[];
    assert AsSet([HoldRow(c.hold)]) == {HoldRow(c.hold)} && AsSet([]) == {};
    assert tx.held + {HoldRow(c.hold)} == AsSet(FirstLocks(c));
    hide FirstLocks, AsSet;
  }

  lemma PerformPlanned(w: World, action: Action)
    requires AllPlanned(w)
    ensures AllPlanned(Perform(w, action))
  {
    hide FirstLocks, Locked, Plan;
    match action
    case Begin(c) =>
      if Resolve(w.db, c).Some? {
        NewPlanned(Resolve(w.db, c).value);
      }
    case Acquire(i) =>
      if CanAcquire(w, i) {
        LockedPlanned(w.db, w.txs[i]);
      }
    case _ =>
  }

  lemma {:induction false} InterleavingPlanned(actions: seq<Action>)
    ensures AllPlanned(Interleaved(actions))
  {
    hide Perform, PlanKept;
    if actions != [] {
      var n := |actions| - 1;
      InterleavingPlanned(actions[..n]);
      PerformPlanned(Interleaved(actions[..n]), actions[n]);
    }
  }

  // ------------------------------------------------- one verdict, two tables

  /** No row that the transaction locked and found missing has appeared since. */
  ghost predicate ReadAll(db: Tables, tx: Tx) {
    && (forall a :: AccountRow(a) in tx.held && a in db.accounts ==> a in tx.accounts)
    && (forall h :: HoldRow(h) in tx.held && h in db.holds ==> h in tx.holds)
  }

  /** v is l with some account and hold rows out of sight. */
  ghost predicate Restricts(v: Tables, l: Tables) {
    v == l.(accounts := v.accounts, holds := v.holds) && SameRows(v, l)
  }

  /** The account is there on both or on neither. */
  predicate Alike(v: Tables, l: Tables, account: Id) {
    account in v.accounts <==> account in l.accounts
  }

  /** Both refuse, for the same reason, or both succeed. */
  predicate SameVerdict(r: Result<Tables, Error>, s: Result<Tables, Error>) {
    match (r, s)
    case (Success(_), Success(_)) => true
    case (Failure(e), Failure(f)) => e == f
    case _ => false
  }

  /** Both refuse, for the same reason, or both succeed on tables that still differ in what is out of sight only. */
  ghost predicate SameSteps(v: Tables, r: Result<Tables, Error>, s: Result<Tables, Error>) {
    && SameVerdict(r, s)
    && (r.Success? ==> Restricts(r.value, s.value) && r.value.accounts.Keys == v.accounts.Keys)
  }

  lemma InsertSteps(v: Tables, l: Tables, t: Transfer)
    requires Restricts(v, l)
    ensures SameSteps(v, InsertTransfer(v, t), InsertTransfer(l, t))
  {
    hide HasReversal, HasTransfer;
  }

  lemma UpdateSteps(v: Tables, l: Tables, id: Id, balance: int, encumbered: int)
    requires Restricts(v, l) && id in v.accounts
    ensures id in l.accounts && v.accounts[id] == l.accounts[id]
    ensures SameSteps(v, UpdateAccount(v, id, balance, encumbered), UpdateAccount(l, id, balance, encumbered))
  {
  }

  lemma RestrictedRow(v: Tables, l: Tables, id: Id)
    requires Restricts(v, l) && id in v.accounts
    ensures id in l.accounts && l.accounts[id] == v.accounts[id]
  {
  }

  lemma EntrySteps(v: Tables, l: Tables, e: Entry)
    requires Restricts(v, l)
    ensures Restricts(v.(entries := v.entries + [e]), l.(entries := l.entries + [e]))
  {
  }

  lemma PostEntrySteps(v: Tables, l: Tables, id: Id, account: Id, transfer: Id, amount: int, release: int, now: Time)
    requires Restricts(v, l) && account in v.accounts
    ensures account in l.accounts
    ensures SameSteps(v, PostEntry(v, id, account, transfer, amount, release, now),
      PostEntry(l, id, account, transfer, amount, release, now))
  {
    hide UpdateAccount, EntryFor, Restricts;
    RestrictedRow(v, l, account);
    var a := v.accounts[account];
    var e := EntryFor(a, id, transfer, amount, now);
    EntrySteps(v, l, e);
    UpdateSteps(v.(entries := v.entries + [e]), l.(entries := l.entries + [e]), account, a.balance + amount,
      a.encumbered - release);
  }

  lemma PostTwoSteps(v: Tables, l: Tables, t: Transfer, release: int, now: Time)
    requires Restricts(v, l) && t.from in v.accounts && t.to in v.accounts && t.from in l.accounts && t.to in l.accounts
    ensures SameSteps(v, PostTwo(v, t, release, now), PostTwo(l, t, release, now))
  {
    hide PostEntry, Restricts;
    var first := PostEntry(v, t.id + 1, t.from, t.id, -t.amount, release, now);
    var first' := PostEntry(l, t.id + 1, t.from, t.id, -t.amount, release, now);
    PostEntrySteps(v, l, t.id + 1, t.from, t.id, -t.amount, release, now);
    PostKeepsKeys(l, t.id + 1, t.from, t.id, -t.amount, release, now);
    if first.Success? {
      PostEntrySteps(first.value, first'.value, t.id + 2, t.to, t.id, t.amount, 0, now);
    }
  }

  lemma MoveSteps(v: Tables, l: Tables, t: Transfer, release: int, now: Time)
    requires Restricts(v, l) && t.from in v.accounts && t.to in v.accounts && t.from in l.accounts && t.to in l.accounts
    ensures SameSteps(v, Move(v, t, release, now), Move(l, t, release, now))
  {
    hide InsertTransfer, PostEntry, Restricts;
    InsertSteps(v, l, t);
    InsertKeepsAccounts(v, t);
    InsertKeepsAccounts(l, t);
    if InsertTransfer(v, t).Success? {
      PostTwoSteps(InsertTransfer(v, t).value, InsertTransfer(l, t).value, t, release, now);
    }
  }

  lemma EmitSteps(v: Tables, l: Tables, id: Id, aggregate: Aggregate, eventType: EventType, transfer: Option<Id>,
      now: Time)
    requires Restricts(v, l)
    ensures Emit(v, id, aggregate, eventType, transfer, now).accounts == v.accounts
    ensures Restricts(Emit(v, id, aggregate, eventType, transfer, now),
      Emit(l, id, aggregate, eventType, transfer, now))
  {
    hide MaxSequence;
  }

  lemma PostTransferSteps(v: Tables, l: Tables, input: TransferInput, base: Id, now: Time)
    requires Restricts(v, l) && Alike(v, l, input.from) && Alike(v, l, input.to)
    ensures SameSteps(v, PostTransfer(v, input, base, now), PostTransfer(l, input, base, now))
  {
    hide Move, Restricts, Emit;
    if input.from in v.accounts && input.to in v.accounts {
      RestrictedRow(v, l, input.from);
      RestrictedRow(v, l, input.to);
      var t := Transfer(base, input.from, input.to, input.amount, now, input.reversed);
      MoveSteps(v, l, t, 0, now);
      if Move(v, t, 0, now).Success? {
        EmitSteps(Move(v, t, 0, now).value, Move(l, t, 0, now).value, base + 3, TransferAggregate(base),
          TransferEventType(t), Some(base), now);
      }
    }
  }

  predicate EndpointsAlike(v: Tables, l: Tables, inputs: seq<TransferInput>) {
    forall i :: 0 <= i < |inputs| ==> Alike(v, l, inputs[i].from) && Alike(v, l, inputs[i].to)
  }

  lemma {:induction false} PostAllSteps(v: Tables, l: Tables, inputs: seq<TransferInput>, base: Id, now: Time)
    requires Restricts(v, l) && EndpointsAlike(v, l, inputs)
    ensures SameSteps(v, PostAll(v, inputs, base, now), PostAll(l, inputs, base, now))
  {
    hide PostTransfer, Restricts;
    if inputs != [] {
      var n := |inputs| - 1;
      PostAllSteps(v, l, inputs[..n], base, now);
      if PostAll(v, inputs[..n], base, now).Success? {
        var v1, l1 := PostAll(v, inputs[..n], base, now).value, PostAll(l, inputs[..n], base, now).value;
        PostAllKeys(l, inputs[..n], base, now);
        PostTransferSteps(v1, l1, inputs[n], base + 4 * n, now);
      }
    }
  }

  lemma HoldFundsSteps(v: Tables, l: Tables, account: Id, amount: int, base: Id, now: Time)
    requires Restricts(v, l) && Alike(v, l, account)
    ensures SameVerdict(HoldFunds(v, account, amount, base, now), HoldFunds(l, account, amount, base, now))
  {
    hide Emit;
  }

  lemma VoidHoldSteps(v: Tables, l: Tables, hold: Id, base: Id, now: Time)
    requires Restricts(v, l) && (hold in v.holds <==> hold in l.holds)
    requires hold in v.holds && v.holds[hold].status == Active ==> Alike(v, l, v.holds[hold].account)
    ensures SameVerdict(VoidHold(v, hold, base, now), VoidHold(l, hold, base, now))
  {
    hide Emit;
  }

  lemma CaptureHoldSteps(v: Tables, l: Tables, hold: Id, to: Id, base: Id, now: Time)
    requires Restricts(v, l) && (hold in v.holds <==> hold in l.holds)
    requires hold in v.holds && v.holds[hold].status == Active ==>
      Alike(v, l, v.holds[hold].account) && Alike(v, l, to)
    ensures SameVerdict(CaptureHold(v, hold, to, base, now), CaptureHold(l, hold, to, base, now))
  {
    hide Emit, Move;
    if hold in v.holds && v.holds[hold].status == Active && v.holds[hold].account in v.accounts && to in v.accounts {
      var h := v.holds[hold];
      MoveSteps(v, l, Transfer(base, h.account, to, h.amount, now, None), h.amount, now);
    }
  }

  // ---------------------------------------------------------- the verdict

  /** The locks are all taken. */
  ghost predicate PlanDone(db: Tables, tx: Tx) {
    PlanKept(tx) && tx.phase == Locking([]) && RowsHeld(db, tx) && !tx.command.Reverse?
  }

  lemma ViewRestricts(db: Tables, tx: Tx)
    requires RowsHeld(db, tx)
    ensures Restricts(View(db, tx), db)
  {
  }

  lemma HeldAlike(db: Tables, tx: Tx, account: Id)
    requires RowsHeld(db, tx) && ReadAll(db, tx) && AccountRow(account) in tx.held
    ensures Alike(View(db, tx), db, account)
  {
  }

  lemma AccountInLocks(ids: seq<Id>, keys: seq<Id>, id: Id)
    ensures AccountRow(id) in AsSet(AccountLocks(ids) + KeyLocks(keys)) <==> id in ids
    ensures AccountRow(id) in AccountLocks(ids) <==> id in ids
  {
    if id in ids {
      var k :| 0 <= k < |ids| && ids[k] == id;
      assert AccountLocks(ids)[k] == AccountRow(id);
      assert AccountRow(id) in AccountLocks(ids);
    }
  }

  lemma BatchHeld(tx: Tx)
    requires PlanKept(tx) && tx.phase == Locking([]) && tx.command.Batch? && CheckInputs(tx.command.inputs).Pass?
    ensures var inputs := tx.command.inputs;
      tx.held == AsSet(AccountLocks(SortIds(Endpoints(inputs))) + KeyLocks(Keys(inputs)))
  {
    hide SortIds, Endpoints, Keys, CheckInputs;
    assert AsSet([]) == {};
  }

  lemma BatchLocked(tx: Tx, id: Id)
    requires PlanKept(tx) && tx.phase == Locking([]) && tx.command.Batch? && CheckInputs(tx.command.inputs).Pass?
    ensures AccountRow(id) in tx.held <==> IsEndpoint(tx.command.inputs, id)
    ensures forall lock :: lock in tx.held ==> !lock.HoldRow?
  {
    hide SortIds, Endpoints, Keys, CheckInputs, PlanKept, IsEndpoint;
    BatchHeld(tx);
    var inputs := tx.command.inputs;
    AccountInLocks(SortIds(Endpoints(inputs)), Keys(inputs), id);
  }

  lemma HoldLocked(tx: Tx)
    requires PlanKept(tx) && tx.phase == Locking([]) && (tx.command.Void? || tx.command.Capture?)
    ensures HoldRow(tx.command.hold) in tx.held
    ensures tx.command.hold in tx.holds && tx.holds[tx.command.hold].status == Active ==>
      && AccountRow(tx.holds[tx.command.hold].account) in tx.held
      && (tx.command.Capture? ==> AccountRow(tx.command.to) in tx.held)
  {
    assert AsSet([]) == {};
    var c := tx.command;
    if c.hold in tx.holds && tx.holds[c.hold].status == Active {
      var more := HoldAccountLocks(c, tx.holds[c.hold]);
      if c.Capture? {
        var ids := HoldUseCase.CaptureIds(tx.holds[c.hold].account, c.to);
        forall id | id in ids
          ensures AccountRow(id) in more
        {
          var k :| 0 <= k < |ids| && ids[k] == id;
          assert more[k] == AccountRow(id);
        }
      } else {
        assert more[0] == AccountRow(tx.holds[c.hold].account);
      }
    }
  }

  lemma BatchVerdict(db: Tables, tx: Tx, base: Id, now: Time)
    requires PlanDone(db, tx) && ReadAll(db, tx) && tx.command.Batch?
    ensures SameVerdict(Apply(View(db, tx), tx.command, base, now), Apply(db, tx.command, base, now))
  {
    var v, inputs := View(db, tx), tx.command.inputs;
    if CheckInputs(inputs).Pass? {
      forall i | 0 <= i < |inputs|
        ensures Alike(v, db, inputs[i].from) && Alike(v, db, inputs[i].to)
      {
        assert IsEndpoint(inputs, inputs[i].from) && IsEndpoint(inputs, inputs[i].to);
        BatchLocked(tx, inputs[i].from);
        BatchLocked(tx, inputs[i].to);
        HeldAlike(db, tx, inputs[i].from);
        HeldAlike(db, tx, inputs[i].to);
      }
      hide PostAll, View, PlanKept, ReadAll, CheckInputs;
      ViewRestricts(db, tx);
      PostAllSteps(v, db, inputs, base, now);
    }
  }

  /** With nothing missed, the verdict on what was read is the verdict on the committed tables, error for error. */
  lemma SameVerdictOnView(db: Tables, tx: Tx, base: Id, now: Time)
    requires PlanDone(db, tx) && ReadAll(db, tx)
    ensures SameVerdict(Apply(View(db, tx), tx.command, base, now), Apply(db, tx.command, base, now))
  {
    var v := View(db, tx);
    ViewRestricts(db, tx);
    match tx.command
    case Open(_, _, _) =>
    case Batch(_) => BatchVerdict(db, tx, base, now);
    case PlaceHold(account, amount) =>
      PlaceVerdict(db, tx, base, now);
    case Void(hold) =>
      EndVerdict(db, tx, base, now);
    case Capture(hold, to) =>
      EndVerdict(db, tx, base, now);
  }

  lemma PlaceVerdict(db: Tables, tx: Tx, base: Id, now: Time)
    requires PlanDone(db, tx) && ReadAll(db, tx) && tx.command.PlaceHold?
    ensures SameVerdict(Apply(View(db, tx), tx.command, base, now), Apply(db, tx.command, base, now))
  {
    var c := tx.command;
    if c.amount > 0 {
      assert AsSet([]) == {} && AccountRow(c.account) in [AccountRow(c.account)];
      HeldAlike(db, tx, c.account);
      ViewRestricts(db, tx);
      HoldFundsSteps(View(db, tx), db, c.account, c.amount, base, now);
    }
  }

  lemma EndVerdict(db: Tables, tx: Tx, base: Id, now: Time)
    requires PlanDone(db, tx) && ReadAll(db, tx) && (tx.command.Void? || tx.command.Capture?)
    ensures SameVerdict(Apply(View(db, tx), tx.command, base, now), Apply(db, tx.command, base, now))
  {
    var c, v := tx.command, View(db, tx);
    HoldLocked(tx);
    ViewRestricts(db, tx);
    if c.hold in v.holds && v.holds[c.hold].status == Active {
      HeldAlike(db, tx, v.holds[c.hold].account);
      if c.Capture? {
        HeldAlike(db, tx, c.to);
      }
    }
    hide VoidHold, CaptureHold, View, PlanKept, Restricts;
    if c.Void? {
      VoidHoldSteps(v, db, c.hold, base, now);
    } else {
      CaptureHoldSteps(v, db, c.hold, c.to, base, now);
    }
  }

  /** A transaction that comes to success had found every row it locked. */
  lemma SuccessReadAll(db: Tables, tx: Tx, base: Id, now: Time)
    requires PlanDone(db, tx) && Apply(View(db, tx), tx.command, base, now).Success?
    ensures ReadAll(db, tx)
  {
    hide PlanKept, ReadAll, Apply;
    match tx.command
    case Batch(_) => BatchReadAll(db, tx, base, now);
    case PlaceHold(_, _) => FewReadAll(db, tx, base, now);
    case Open(_, _, _) => FewReadAll(db, tx, base, now);
    case Void(_) => EndReadAll(db, tx, base, now);
    case Capture(_, _) => EndReadAll(db, tx, base, now);
  }

  lemma BatchReadAll(db: Tables, tx: Tx, base: Id, now: Time)
    requires PlanDone(db, tx) && tx.command.Batch? && Apply(View(db, tx), tx.command, base, now).Success?
    ensures ReadAll(db, tx)
  {
    var inputs := tx.command.inputs;
    assert CheckInputs(inputs).Pass? && AllKnown(View(db, tx), inputs);
    hide PlanKept, CheckInputs, Apply;
    BatchLocked(tx, 0);
    forall a | AccountRow(a) in tx.held
      ensures a in tx.accounts
    {
      BatchLocked(tx, a);
    }
  }

  lemma FewReadAll(db: Tables, tx: Tx, base: Id, now: Time)
    requires PlanDone(db, tx) && (tx.command.PlaceHold? || tx.command.Open?)
    requires Apply(View(db, tx), tx.command, base, now).Success?
    ensures ReadAll(db, tx)
  {
    assert AsSet([]) == {};
  }

  lemma EndReadAll(db: Tables, tx: Tx, base: Id, now: Time)
    requires PlanDone(db, tx) && (tx.command.Void? || tx.command.Capture?)
    requires Apply(View(db, tx), tx.command, base, now).Success?
    ensures ReadAll(db, tx)
  {
    var c := tx.command;
    var h := tx.holds[c.hold];
    assert h.account in tx.accounts && (c.Capture? ==> c.to in tx.accounts) && h.status == Active;
    hide Apply;
    assert AsSet([]) == {};
    assert tx.held == {HoldRow(c.hold)} + AsSet(HoldAccountLocks(c, h));
    if c.Capture? {
      forall a
        ensures AccountRow(a) in AccountLocks(HoldUseCase.CaptureIds(h.account, c.to)) <==> a == h.account || a == c.to
      {
        AccountInLocks(HoldUseCase.CaptureIds(h.account, c.to), [], a);
      }
    }
  }

  /**
   A transaction with all its locks succeeds on what it read exactly when the command
   would succeed on the committed tables and no row that it locked and found missing
   has appeared since. So none that is accepted is lost to a lock it did not take.
  */
  lemma PrepareDecides(actions: seq<Action>, i: nat)
    requires CanPrepare(Interleaved(actions), i)
    ensures var w := Interleaved(actions); var tx := w.txs[i];
      && (Apply(View(w.db, tx), tx.command, w.nextId, w.clock).Success? <==>
            Apply(w.db, tx.command, w.nextId, w.clock).Success? && ReadAll(w.db, tx))
      && (ReadAll(w.db, tx) ==> SameVerdict(Apply(View(w.db, tx), tx.command, w.nextId, w.clock),
            Apply(w.db, tx.command, w.nextId, w.clock)))
  {
    var w := Interleaved(actions);
    var tx := w.txs[i];
    InterleavingInvariant(actions);
    InterleavingPlanned(actions);
    assert TxGood(w, tx) && PlanKept(tx);
    hide Interleaved, Apply, View, ReadAll, PlanKept;
    if ReadAll(w.db, tx) {
      SameVerdictOnView(w.db, tx, w.nextId, w.clock);
    } else if Apply(View(w.db, tx), tx.command, w.nextId, w.clock).Success? {
      SuccessReadAll(w.db, tx, w.nextId, w.clock);
    }
  }

  // ------------------------------------------------------ missing the row

  const HOLD_ZERO := PlaceHold(0, 4)
  const OPEN_ZERO := Open("USD", true, true)

  /** Hold four on account 0, begun before there is an account 0, and computed when there is one. */
  const LATE := [Begin(HOLD_ZERO), Acquire(0), Begin(OPEN_ZERO), Prepare(1), Commit(1)]

  /** The second half of that condition can fail: an account opened after its missing row was locked is not seen. */
  lemma OpenedTooLate()
    ensures var w := Interleaved(LATE);
      && CanPrepare(w, 0) && !ReadAll(w.db, w.txs[0])
      && Apply(w.db, HOLD_ZERO, w.nextId, w.clock).Success?
      && Apply(View(w.db, w.txs[0]), HOLD_ZERO, w.nextId, w.clock) == Failure(AccountNotFound)
  {
    var waiting := Tx(HOLD_ZERO, Locking([]), {AccountRow(0)}, map[], map[]);
    var opening := Tx(OPEN_ZERO, Locking([]), {}, map[], map[]);
    assert LATE[..4][..3] == LATE[..3] && LATE[..3][..2] == LATE[..2] && LATE[..2][..1] == LATE[..1];
    assert LATE[..5] == LATE && LATE[..1][..0] == [];
    assert [AccountRow(0)][1..] == [] && {} + {AccountRow(0)} == {AccountRow(0)};
    var w1 := Interleaved(LATE[..1]);
    assert w1 == Perform(Interleaved([]), LATE[..1][0]) && LATE[..1][0] == Begin(HOLD_ZERO);
    assert FirstLocks(HOLD_ZERO) == [AccountRow(0)];
    assert w1 == START.(txs := [Tx(HOLD_ZERO, Locking([AccountRow(0)]), {}, map[], map[])]);
    var w2 := Interleaved(LATE[..2]);
    assert w2 == Perform(w1, Acquire(0)) == START.(txs := [waiting]);
    var w3 := Interleaved(LATE[..3]);
    assert w3 == Perform(w2, Begin(OPEN_ZERO)) == START.(txs := [waiting, opening]);
    LateCommit(w3, Interleaved(LATE[..4]), Interleaved(LATE));
  }

  lemma LateCommit(w: World, w1: World, w2: World)
    requires w.db == EMPTY && w.nextId == 0 && |w.txs| == 2
    requires w.txs[0] == Tx(HOLD_ZERO, Locking([]), {AccountRow(0)}, map[], map[])
    requires w.txs[1] == Tx(OPEN_ZERO, Locking([]), {}, map[], map[])
    requires w1 == Perform(w, Prepare(1)) && w2 == Perform(w1, Commit(1))
    ensures CanPrepare(w2, 0) && !ReadAll(w2.db, w2.txs[0])
    ensures Apply(w2.db, HOLD_ZERO, w2.nextId, w2.clock).Success?
    ensures Apply(View(w2.db, w2.txs[0]), HOLD_ZERO, w2.nextId, w2.clock) == Failure(AccountNotFound)
  {
    assert View(w.db, w.txs[1]) == EMPTY;
    assert w1.txs[1].phase == Prepared(EMPTY, OpenAccount(EMPTY, "USD", true, true, 0), 0, w.clock);
    assert w2.db.accounts == map[0 := Account(0, "USD", 0, 0, 0, true, true)];
    assert w2.txs[0] == w.txs[0];
  }

  // ------------------------------------------------ sequences of actions

  function PerformAll(w: World, actions: seq<Action>): World {
    if actions == [] then w else Perform(PerformAll(w, actions[..|actions| - 1]), actions[|actions| - 1])
  }

  lemma {:induction false} InterleavedThen(actions: seq<Action>, more: seq<Action>)
    ensures Interleaved(actions + more) == PerformAll(Interleaved(actions), more)
  {
    hide Perform;
    if more == [] {
      assert actions + more == actions;
    } else {
      var n := |more| - 1;
      InterleavedThen(actions, more[..n]);
      assert (actions + more)[..|actions| + n] == actions + more[..n];
    }
  }

  lemma {:induction false} PerformThen(w: World, first: seq<Action>, more: seq<Action>)
    ensures PerformAll(w, first + more) == PerformAll(PerformAll(w, first), more)
  {
    hide Perform;
    if more == [] {
      assert first + more == first;
    } else {
      var n := |more| - 1;
      PerformThen(w, first, more[..n]);
      assert (first + more)[..|first| + n] == first + more[..n];
    }
  }

  lemma PerformOne(w: World, action: Action)
    ensures PerformAll(w, [action]) == Perform(w, action)
  {
    assert [action][..0] == [];
  }

  function Repeat(action: Action, n: nat): (r: seq<Action>)
    ensures |r| == n && forall k :: 0 <= k < n ==> r[k] == action
  {
    seq(n, _ => action)
  }

  // ----------------------------------------------------- nobody in the way

  /** No transaction is open. */
  ghost predicate Quiet(w: World) {
    forall i :: 0 <= i < |w.txs| ==> w.txs[i].phase == Done && w.txs[i].held == {}
  }

  lemma {:induction false} PerformAllKeeps(w: World, actions: seq<Action>)
    requires WorldInvariant(w)
    ensures WorldInvariant(PerformAll(w, actions))
  {
    hide WorldInvariant, Perform;
    if actions != [] {
      var n := |actions| - 1;
      PerformAllKeeps(w, actions[..n]);
      PerformKeeps(PerformAll(w, actions[..n]), actions[n]);
    }
  }

  function NewTx(c: Command): Tx {
    Tx(c, Locking(FirstLocks(c)), {}, map[], map[])
  }

  lemma BeginPlain(w: World, c: Command)
    requires !c.Reverse?
    ensures Perform(w, Begin(c)) == w.(txs := w.txs + [NewTx(c)])
  {
  }

  /** A commit: the command's effect on the committed tables, and one transaction finished. */
  lemma CommitAlone(w: World, i: nat)
    requires WorldInvariant(w) && CanCommit(w, i)
    ensures var w', tx := Perform(w, Commit(i)), w.txs[i];
      && WorldInvariant(w') && w'.nextId == w.nextId && w'.clock == w.clock
      && w'.txs == w.txs[i := Finished(tx)] && w'.log == w.log + [Step(tx.command, tx.phase.base, tx.phase.at)]
      && Apply(w.db, tx.command, tx.phase.base, tx.phase.at) == Success(w'.db)
  {
    PerformKeeps(w, Commit(i));
    CommitIsApply(w, i);
    hide WorldInvariant, Merge, Apply;
  }

  lemma LockedReadAll(db: Tables, tx: Tx)
    requires ReadAll(db, tx) && tx.phase.Locking? && tx.phase.pending != []
    ensures ReadAll(db, Locked(db, tx))
  {
  }

  /** Nobody but transaction i holds a lock. */
  ghost predicate OthersHoldNothing(w: World, i: nat) {
    forall j :: 0 <= j < |w.txs| && j != i ==> w.txs[j].held == {}
  }

  /** Transaction i of w' has all its locks and missed no row; everything else is as in w. */
  ghost predicate LocksTaken(w: World, w': World, i: nat)
    requires i < |w.txs|
  {
    && w' == w.(txs := w'.txs) && |w'.txs| == |w.txs| && w'.txs == w.txs[i := w'.txs[i]]
    && w'.txs[i].phase == Locking([]) && w'.txs[i].command == w.txs[i].command
    && ReadAll(w'.db, w'.txs[i]) && PlanKept(w'.txs[i])
  }

  lemma TakeOne(w: World, i: nat)
    requires i < |w.txs| && OthersHoldNothing(w, i)
    requires w.txs[i].phase.Locking? && w.txs[i].phase.pending != []
    ensures Perform(w, Acquire(i)) == w.(txs := w.txs[i := Locked(w.db, w.txs[i])])
    ensures Locked(w.db, w.txs[i]).phase.Locking? && Locked(w.db, w.txs[i]).command == w.txs[i].command
    ensures OthersHoldNothing(Perform(w, Acquire(i)), i)
  {
    hide HoldAccountLocks;
  }

  /** With nobody in the way the transaction takes all its locks. */
  lemma {:induction false} TakeAll(w: World, i: nat) returns (n: nat)
    requires i < |w.txs| && OthersHoldNothing(w, i)
    requires w.txs[i].phase.Locking? && PlanKept(w.txs[i]) && ReadAll(w.db, w.txs[i])
    ensures LocksTaken(w, PerformAll(w, Repeat(Acquire(i), n)), i)
    decreases if w.txs[i].phase.pending != [] && w.txs[i].phase.pending[0].HoldRow? then 1 else 0,
      |w.txs[i].phase.pending|
  {
    var tx := w.txs[i];
    if tx.phase.pending == [] {
      n := 0;
    } else {
      TakeOne(w, i);
      LockedPlanned(w.db, tx);
      LockedReadAll(w.db, tx);
      LocksShrink(w.db, tx);
      hide Perform, PlanKept, ReadAll, Locked, OthersHoldNothing;
      var w1 := Perform(w, Acquire(i));
      var rest := TakeAll(w1, i);
      n := 1 + rest;
      assert Repeat(Acquire(i), n) == [Acquire(i)] + Repeat(Acquire(i), rest);
      PerformOne(w, Acquire(i));
      PerformThen(w, [Acquire(i)], Repeat(Acquire(i), rest));
      LocksTakenOn(w, w1, PerformAll(w1, Repeat(Acquire(i), rest)), i);
    }
  }

  lemma LocksTakenOn(w: World, w1: World, w': World, i: nat)
    requires i < |w.txs| == |w1.txs| && w1 == w.(txs := w.txs[i := w1.txs[i]])
    requires w1.txs[i].command == w.txs[i].command && LocksTaken(w1, w', i)
    ensures LocksTaken(w, w', i)
  {
  }

  lemma LocksShrink(db: Tables, tx: Tx)
    requires PlanKept(tx) && tx.phase.Locking? && tx.phase.pending != []
    ensures var more := Locked(db, tx).phase.pending;
      if tx.phase.pending[0].HoldRow? then more == [] || !more[0].HoldRow?
      else |more| < |tx.phase.pending| && (more == [] || !more[0].HoldRow?)
  {
    hide Plan;
    if !tx.phase.pending[0].HoldRow? && |tx.phase.pending| > 1 {
      assert tx.phase.pending[1..][0] == tx.phase.pending[1];
    }
  }

  /** One more commit, of this command, with what it does to the committed tables; nobody left open. */
  ghost predicate Committed(w: World, w': World, c: Command) {
    && Apply(w.db, c, w.nextId, w.clock) == Success(w'.db)
    && w'.log == w.log + [Step(c, w.nextId, w.clock)]
    && w'.nextId == w.nextId + Need(c) && w'.clock == w.clock && |w'.txs| == |w.txs| + 1
  }

  lemma PreparesAlone(w: World, i: nat)
    requires WorldInvariant(w) && i < |w.txs| && LocksTaken(w, w, i)
    requires Apply(w.db, w.txs[i].command, w.nextId, w.clock).Success?
    ensures var c, w' := w.txs[i].command, Perform(w, Prepare(i));
      && CanCommit(w', i) && w'.db == w.db && w'.log == w.log && w'.clock == w.clock
      && w'.nextId == w.nextId + Need(c) && |w'.txs| == |w.txs| && w'.txs == w.txs[i := w'.txs[i]]
      && w'.txs[i].command == c && w'.txs[i].phase.base == w.nextId && w'.txs[i].phase.at == w.clock
  {
    assert TxGood(w, w.txs[i]);
    SameVerdictOnView(w.db, w.txs[i], w.nextId, w.clock);
    hide WorldInvariant, Apply, View, PlanKept, ReadAll, TxGood;
  }

  /** A transaction with its locks, alone, computes and commits. */
  lemma FinishAlone(w: World, i: nat)
    requires WorldInvariant(w) && i < |w.txs| && LocksTaken(w, w, i)
    requires Apply(w.db, w.txs[i].command, w.nextId, w.clock).Success?
    ensures var c, w' := w.txs[i].command, Perform(Perform(w, Prepare(i)), Commit(i));
      && Apply(w.db, c, w.nextId, w.clock) == Success(w'.db) && w'.log == w.log + [Step(c, w.nextId, w.clock)]
      && w'.nextId == w.nextId + Need(c) && w'.clock == w.clock
      && |w'.txs| == |w.txs| && w'.txs == w.txs[i := w'.txs[i]] && w'.txs[i].phase == Done && w'.txs[i].held == {}
  {
    hide WorldInvariant, Apply, LocksTaken, Perform;
    PreparesAlone(w, i);
    PerformKeeps(w, Prepare(i));
    CommitAlone(Perform(w, Prepare(i)), i);
  }

  /** In what Reverse becomes, and any other command as it is. */
  function AsTransaction(db: Tables, c: Command): Command {
    match c
    case Reverse(original) =>
      (match FindTransfer(db.transfers, original)
       case None => c
       case Some(t) => Batch([TransferInput(t.to, t.from, t.amount, Some(t.id))]))
    case _ => c
  }

  lemma BeginAccepted(w: World, c: Command)
    requires Apply(w.db, c, w.nextId, w.clock).Success?
    ensures var d := AsTransaction(w.db, c);
      && !d.Reverse? && Perform(w, Begin(c)) == w.(txs := w.txs + [NewTx(d)])
      && Apply(w.db, d, w.nextId, w.clock) == Apply(w.db, c, w.nextId, w.clock)
  {
    hide FirstLocks, CreateBatch;
  }

  /** The actions of one transaction, p: begin, n locks, compute, commit. */
  function Alone(c: Command, p: nat, n: nat): seq<Action> {
    [Begin(c)] + Repeat(Acquire(p), n) + [Prepare(p), Commit(p)]
  }

  lemma PerformTwo(w: World, x: Action, y: Action)
    ensures PerformAll(w, [x, y]) == Perform(Perform(w, x), y)
  {
    hide Perform;
    assert [x, y][..1] == [x];
    PerformOne(w, x);
  }

  /** The world once the only open transaction, the last one, has all its locks. */
  ghost predicate ReadyAlone(w: World, w': World, d: Command) {
    var p := |w.txs|;
    && |w'.txs| == p + 1 && w' == w.(txs := w.txs + [w'.txs[p]])
    && w'.txs[p].command == d && LocksTaken(w', w', p)
  }

  lemma BegunAlone(w: World, d: Command)
    requires Quiet(w)
    ensures OthersHoldNothing(w.(txs := w.txs + [NewTx(d)]), |w.txs|)
    ensures PlanKept(NewTx(d)) && ReadAll(w.db, NewTx(d))
  {
    NewPlanned(d);
    hide FirstLocks, PlanKept;
  }

  lemma ReadyFrom(w: World, d: Command, w': World)
    requires LocksTaken(w.(txs := w.txs + [NewTx(d)]), w', |w.txs|)
    ensures ReadyAlone(w, w', d)
  {
    hide FirstLocks, PlanKept, ReadAll;
    var p, txs := |w.txs|, w.txs + [NewTx(d)];
    assert w'.txs == w.txs + [w'.txs[p]];
  }

  lemma LocksAlone(w: World, c: Command) returns (n: nat)
    requires Quiet(w) && Apply(w.db, c, w.nextId, w.clock).Success?
    ensures ReadyAlone(w, PerformAll(w, [Begin(c)] + Repeat(Acquire(|w.txs|), n)), AsTransaction(w.db, c))
  {
    hide FirstLocks, PlanKept, ReadAll, Perform, PerformAll, Apply, OthersHoldNothing, AsTransaction, LocksTaken, Quiet;
    hide ReadyAlone;
    var d, p := AsTransaction(w.db, c), |w.txs|;
    BeginAccepted(w, c);
    BegunAlone(w, d);
    var w1 := w.(txs := w.txs + [NewTx(d)]);
    assert w1.txs[p] == NewTx(d);
    n := TakeAll(w1, p);
    PerformOne(w, Begin(c));
    PerformThen(w, [Begin(c)], Repeat(Acquire(p), n));
    ReadyFrom(w, d, PerformAll(w1, Repeat(Acquire(p), n)));
  }

  lemma CommittedAlone(w: World, w2: World, d: Command)
    requires Quiet(w) && WorldInvariant(w2) && ReadyAlone(w, w2, d) && Apply(w.db, d, w.nextId, w.clock).Success?
    ensures var w' := Perform(Perform(w2, Prepare(|w.txs|)), Commit(|w.txs|));
      Quiet(w') && Committed(w, w', d)
  {
    hide WorldInvariant, Perform, Apply;
    FinishAlone(w2, |w.txs|);
  }

  lemma CommitsAlone(w: World, c: Command) returns (n: nat)
    requires WorldInvariant(w) && Quiet(w) && Apply(w.db, c, w.nextId, w.clock).Success?
    ensures var w' := PerformAll(w, Alone(c, |w.txs|, n));
      WorldInvariant(w') && Quiet(w') && Committed(w, w', AsTransaction(w.db, c))
  {
    hide WorldInvariant, Perform, PerformAll, Apply, Quiet, Committed, ReadyAlone, AsTransaction;
    var d, p := AsTransaction(w.db, c), |w.txs|;
    BeginAccepted(w, c);
    n := LocksAlone(w, c);
    var locking := [Begin(c)] + Repeat(Acquire(p), n);
    PerformThen(w, locking, [Prepare(p), Commit(p)]);
    PerformTwo(PerformAll(w, locking), Prepare(p), Commit(p));
    PerformAllKeeps(w, locking);
    PerformAllKeeps(w, Alone(c, p, n));
    CommittedAlone(w, PerformAll(w, locking), d);
  }

  /**
   With nobody in the way, every command that the committed tables accept commits: it
   begins, takes its locks, computes and commits, does to the tables what it does there,
   and is logged. A reversal is logged as the batch it becomes.
  */
  lemma AcceptedCommandsCommit(actions: seq<Action>, c: Command) returns (n: nat)
    requires Quiet(Interleaved(actions))
    requires Apply(Interleaved(actions).db, c, Interleaved(actions).nextId, Interleaved(actions).clock).Success?
    ensures var w := Interleaved(actions); var w' := Interleaved(actions + Alone(c, |w.txs|, n));
      Quiet(w') && Committed(w, w', AsTransaction(w.db, c))
  {
    hide Interleaved, WorldInvariant, Perform, PerformAll, Quiet, Committed, Apply;
    InterleavingInvariant(actions);
    n := CommitsAlone(Interleaved(actions), c);
    InterleavedThen(actions, Alone(c, |Interleaved(actions).txs|, n));
  }
}
