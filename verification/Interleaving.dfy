/**
 Transactions taking turns. Each locks rows one at a time, reads a row when it
 locks it, computes from those copies alone, and at commit writes absolute rows
 and appends. Any order of steps, with any transaction aborted at any point,
 leaves what the committed commands leave when run one after another in commit
 order.
*/
module Interleaving {
  import opened Wrappers
  import opened Domain
  import opened Ledger
  import opened Projections
  import opened Invariants
  import opened Reachability
  import opened TransferUseCase
  import opened HoldUseCase
  import opened Locality
  import opened EntryChain
  import opened HistoricalBalance
  import opened Batches
  import opened Guarantees

  // --------------------------------------------------------------- locks

  /** Row locks, and the wait for another transaction's uncommitted insert under the unique reversal index. */
  datatype Lock = HoldRow(id: Id) | AccountRow(id: Id) | ReversalKey(id: Id)

  function AccountLocks(ids: seq<Id>): (r: seq<Lock>)
    ensures |r| == |ids| && forall i :: 0 <= i < |ids| ==> r[i] == AccountRow(ids[i])
  {
    seq(|ids|, i requires 0 <= i < |ids| => AccountRow(ids[i]))
  }

  /** The reversal links of a batch, each once, in the order they are inserted. */
  function Keys(inputs: seq<TransferInput>): (r: seq<Id>)
    ensures NoDuplicates(r)
    ensures forall key :: key in r <==> exists i :: 0 <= i < |inputs| && inputs[i].reversed == Some(key)
  {
    if inputs == [] then []
    else
      var n := |inputs| - 1;
      var rest := Keys(inputs[..n]);
      KeysGrow(inputs, n);
      if inputs[n].reversed.Some? then AddUnseen(rest, inputs[n].reversed.value) else rest
  }

  lemma KeysGrow(inputs: seq<TransferInput>, n: nat)
    requires n + 1 == |inputs|
    ensures forall key: Id :: (exists i :: 0 <= i < |inputs| && inputs[i].reversed == Some(key)) <==>
      (exists i :: 0 <= i < n && inputs[..n][i].reversed == Some(key)) || inputs[n].reversed == Some(key)
  {
    assert forall i :: 0 <= i < n ==> inputs[..n][i] == inputs[i];
  }

  function KeyLocks(keys: seq<Id>): (r: seq<Lock>)
    ensures |r| == |keys| && forall i :: 0 <= i < |keys| ==> r[i] == ReversalKey(keys[i])
  {
    seq(|keys|, i requires 0 <= i < |keys| => ReversalKey(keys[i]))
  }

  /** The locks a command sets out to take; nothing when its inputs are refused before any transaction. */
  function FirstLocks(c: Command): seq<Lock> {
    match c
    case Batch(inputs) =>
      if CheckInputs(inputs).Fail? then [] else AccountLocks(SortIds(Endpoints(inputs))) + KeyLocks(Keys(inputs))
    case PlaceHold(account, amount) => if amount <= 0 then [] else [AccountRow(account)]
    case Void(hold) => [HoldRow(hold)]
    case Capture(hold, _) => [HoldRow(hold)]
    case _ => []
  }

  /** The account locks that follow once the hold row has been read. */
  function HoldAccountLocks(c: Command, h: Hold): seq<Lock> {
    if h.status != Active then []
    else match c
      case Capture(_, to) => AccountLocks(CaptureIds(h.account, to))
      case _ => [AccountRow(h.account)]
  }

  // --------------------------------------------------------------- worlds

  datatype Phase =
    | Locking(pending: seq<Lock>)
    | Prepared(view: Tables, result: Tables, base: Id, at: Time)
    | Done

  /** A transaction: what it holds locked, and the rows as it read them. */
  datatype Tx = Tx(command: Command, phase: Phase, held: set<Lock>, accounts: map<Id, Account>, holds: map<Id, Hold>)

  /** Committed tables, transactions, id generator, clock; log lists the commits in order. */
  datatype World = World(db: Tables, txs: seq<Tx>, nextId: Id, clock: Time, log: seq<Step>)

  const START := World(EMPTY, [], 0, 0, [])

  datatype Action =
    | Begin(command: Command)
    | Acquire(tx: nat)
    | Prepare(tx: nat)
    | Commit(tx: nat)
    | Abort(tx: nat)
    | Tick(now: Time)

  /** ReverseTransfer reads its original before any transaction and becomes a batch of one. */
  function Resolve(db: Tables, c: Command): Option<Command> {
    if c.Reverse? then
      match FindTransfer(db.transfers, c.original)
      case None => None
      case Some(t) => Some(Batch([ReversalOf(t)]))
    else Some(c)
  }

  predicate Free(w: World, i: nat, lock: Lock) {
    forall j :: 0 <= j < |w.txs| && j != i ==> lock !in w.txs[j].held
  }

  predicate CanAcquire(w: World, i: nat) {
    && i < |w.txs| && w.txs[i].phase.Locking? && w.txs[i].phase.pending != []
    && Free(w, i, w.txs[i].phase.pending[0])
  }

  predicate CanPrepare(w: World, i: nat) {
    i < |w.txs| && w.txs[i].phase == Locking([])
  }

  predicate CanCommit(w: World, i: nat) {
    i < |w.txs| && w.txs[i].phase.Prepared?
  }

  /** Take a lock and read the row it guards, as committed now. */
  function Locked(db: Tables, tx: Tx): Tx
    requires tx.phase.Locking? && tx.phase.pending != []
  {
    var lock, rest := tx.phase.pending[0], tx.phase.pending[1..];
    var held := tx.held + {lock};
    match lock
    case AccountRow(a) =>
      tx.(held := held, phase := Locking(rest),
        accounts := if a in db.accounts then tx.accounts[a := db.accounts[a]] else tx.accounts)
    case ReversalKey(_) => tx.(held := held, phase := Locking(rest))
    case HoldRow(h) =>
      if h in db.holds then
        tx.(held := held, phase := Locking(HoldAccountLocks(tx.command, db.holds[h])),
          holds := tx.holds[h := db.holds[h]])
      else tx.(held := held, phase := Locking([]))
  }

  /** All a transaction can see: the rows it locked, and tables that are only ever appended to. */
  function View(db: Tables, tx: Tx): Tables {
    db.(accounts := tx.accounts, holds := tx.holds)
  }

  function Finished(tx: Tx): Tx {
    tx.(phase := Done, held := {})
  }

  /** Compute the outcome from the view; a refusal rolls the transaction back. */
  function PrepareTx(w: World, i: nat): World
    requires CanPrepare(w, i)
  {
    var tx := w.txs[i];
    match Apply(View(w.db, tx), tx.command, w.nextId, w.clock)
    case Success(result) =>
      w.(txs := w.txs[i := tx.(phase := Prepared(View(w.db, tx), result, w.nextId, w.clock))],
        nextId := w.nextId + Need(tx.command))
    case Failure(_) => w.(txs := w.txs[i := Finished(tx)])
  }

  /** Write the absolute rows and the appended rows, and release all locks. */
  function CommitTx(w: World, i: nat): World
    requires CanCommit(w, i)
  {
    var tx := w.txs[i];
    var p := tx.phase;
    w.(db := Merge(w.db, p.view, p.result), txs := w.txs[i := Finished(tx)], log := w.log + [Step(tx.command, p.base,
      p.at)])
  }

  /** One action; an action that is not possible now changes nothing. */
  function Perform(w: World, action: Action): World {
    match action
    case Begin(c) =>
      (match Resolve(w.db, c)
       case None => w
       case Some(d) => w.(txs := w.txs + [Tx(d, Locking(FirstLocks(d)), {}, map[], map[])]))
    case Acquire(i) => if CanAcquire(w, i) then w.(txs := w.txs[i := Locked(w.db, w.txs[i])]) else w
    case Prepare(i) => if CanPrepare(w, i) then PrepareTx(w, i) else w
    case Commit(i) => if CanCommit(w, i) then CommitTx(w, i) else w
    case Abort(i) => if i < |w.txs| then w.(txs := w.txs[i := Finished(w.txs[i])]) else w
    case Tick(now) => if now >= w.clock then w.(clock := now) else w
  }

  /** The world after any sequence of actions. */
  function Interleaved(actions: seq<Action>): World {
    if actions == [] then START else Perform(Interleaved(actions[..|actions| - 1]), actions[|actions| - 1])
  }

  // ------------------------------------------------------------ invariant

  /** Rows in hand are locked, and still what is committed. */
  ghost predicate RowsHeld(db: Tables, tx: Tx) {
    && (forall a :: a in tx.accounts ==>
          AccountRow(a) in tx.held && a in db.accounts && db.accounts[a] == tx.accounts[a])
    && (forall h :: h in tx.holds ==> HoldRow(h) in tx.held && h in db.holds && db.holds[h] == tx.holds[h])
  }

  /** Every entry of an account in hand has an earlier id and no later time. */
  ghost predicate After(db: Tables, tx: Tx, base: Id, at: Time) {
    forall i :: 0 <= i < |db.entries| && db.entries[i].account in tx.accounts ==>
      db.entries[i].id < base && db.entries[i].createdAt <= at
  }

  /** A prepared outcome is still the outcome on the committed tables. */
  ghost predicate StillGood(w: World, tx: Tx)
    requires tx.phase.Prepared?
  {
    var p := tx.phase;
    && p.view.accounts == tx.accounts && p.view.holds == tx.holds
    && Apply(p.view, tx.command, p.base, p.at) == Success(p.result)
    && SameAnswers(p.view, w.db, tx.command, p.base)
    && p.base + Need(tx.command) <= w.nextId && p.at <= w.clock
    && Fresh(w.db, p.base, Need(tx.command))
    && (forall key :: UsesKey(tx.command, key) ==> ReversalKey(key) in tx.held)
    && After(w.db, tx, p.base, p.at)
  }

  ghost predicate KeysPlanned(tx: Tx)
    requires tx.phase.Locking?
  {
    tx.command.Batch? && CheckInputs(tx.command.inputs).Pass? ==>
      && (forall i :: 0 <= i < |tx.phase.pending| ==> !tx.phase.pending[i].HoldRow?)
      && (forall key :: UsesKey(tx.command, key) ==>
            ReversalKey(key) in tx.held || ReversalKey(key) in tx.phase.pending)
  }

  ghost predicate TxGood(w: World, tx: Tx) {
    && !tx.command.Reverse?
    && match tx.phase
       case Done => tx.held == {}
       case Locking(_) => RowsHeld(w.db, tx) && KeysPlanned(tx)
       case Prepared(_, _, _, _) => RowsHeld(w.db, tx) && StillGood(w, tx)
  }

  ghost predicate LocksExclusive(txs: seq<Tx>) {
    forall i, j :: 0 <= i < j < |txs| ==> txs[i].held !! txs[j].held
  }

  predicate RangesApart(s: Tx, t: Tx)
    requires s.phase.Prepared? && t.phase.Prepared?
  {
    s.phase.base + Need(s.command) <= t.phase.base || t.phase.base + Need(t.command) <= s.phase.base
  }

  ghost predicate AllApart(txs: seq<Tx>) {
    forall i, j :: 0 <= i < j < |txs| && txs[i].phase.Prepared? && txs[j].phase.Prepared? ==> RangesApart(txs[i],
      txs[j])
  }

  /** No id at or above the generator is in use, and no entry is from the future. */
  ghost predicate Past(w: World) {
    && (forall id: Id :: id >= w.nextId ==> Unused(w.db, id))
    && (forall i :: 0 <= i < |w.db.entries| ==> w.db.entries[i].createdAt <= w.clock)
  }

  ghost predicate LogGood(w: World) {
    w.db == Run(w.log) && FreshRun(w.log) && OrderedRun(w.log)
  }

  ghost predicate AllGood(w: World) {
    forall i :: 0 <= i < |w.txs| ==> TxGood(w, w.txs[i])
  }

  ghost predicate WorldInvariant(w: World) {
    LogGood(w) && Past(w) && LocksExclusive(w.txs) && AllApart(w.txs) && AllGood(w)
  }

  // ------------------------------------------------------- easy actions

  lemma BeginKeeps(w: World, c: Command)
    requires WorldInvariant(w)
    ensures WorldInvariant(Perform(w, Begin(c)))
  {
    match Resolve(w.db, c)
    case None =>
    case Some(d) =>
      var tx := Tx(d, Locking(FirstLocks(d)), {}, map[], map[]);
      NewTxGood(w, d);
      hide LogGood, Past, TxGood, FirstLocks;
      var w' := w.(txs := w.txs + [tx]);
      forall i | 0 <= i < |w'.txs|
        ensures TxGood(w', w'.txs[i])
      {
        TxGoodFrame(w, w', if i < |w.txs| then w.txs[i] else tx);
      }
      LogFrame(w, w');
  }

  lemma NewTxGood(w: World, c: Command)
    requires !c.Reverse?
    ensures TxGood(w, Tx(c, Locking(FirstLocks(c)), {}, map[], map[]))
  {
    if c.Batch? && CheckInputs(c.inputs).Pass? {
      PlanHasKeys(c);
    }
  }

  lemma PlanHasKeys(c: Command)
    requires c.Batch? && CheckInputs(c.inputs).Pass?
    ensures forall key :: UsesKey(c, key) ==> ReversalKey(key) in FirstLocks(c)
  {
    var keys := Keys(c.inputs);
    forall key | UsesKey(c, key)
      ensures ReversalKey(key) in FirstLocks(c)
    {
      var i :| 0 <= i < |keys| && keys[i] == key;
      assert KeyLocks(keys)[i] == ReversalKey(key);
    }
  }

  /** What is true of a transaction survives when only the generator and the clock move on. */
  lemma TxGoodFrame(w: World, w': World, tx: Tx)
    requires TxGood(w, tx)
    requires w'.db == w.db && w'.nextId >= w.nextId && w'.clock >= w.clock
    ensures TxGood(w', tx)
  {
    hide RowsHeld, SameAnswers, Fresh, After, KeysPlanned, Apply, UsesKey;
  }

  lemma LogFrame(w: World, w': World)
    requires LogGood(w) && Past(w)
    requires w'.db == w.db && w'.log == w.log && w'.nextId >= w.nextId && w'.clock >= w.clock
    ensures LogGood(w') && Past(w')
  {
    hide Run, FreshRun, OrderedRun, Unused;
  }

  /** Replacing one transaction by one that holds the same or fewer locks and draws no ids. */
  lemma Replaced(w: World, w': World, i: nat)
    requires WorldInvariant(w) && i < |w.txs|
    requires |w'.txs| == |w.txs| && w'.txs == w.txs[i := w'.txs[i]]
    requires w'.db == w.db && w'.log == w.log && w'.nextId >= w.nextId && w'.clock >= w.clock
    requires TxGood(w', w'.txs[i])
    requires forall lock :: lock in w'.txs[i].held ==> Free(w, i, lock)
    requires w'.txs[i].phase.Prepared? ==>
      forall j :: 0 <= j < |w.txs| && j != i && w.txs[j].phase.Prepared? ==> RangesApart(w.txs[j], w'.txs[i])
    ensures WorldInvariant(w')
  {
    hide LogGood, Past, TxGood;
    LogFrame(w, w');
    forall j | 0 <= j < |w'.txs|
      ensures TxGood(w', w'.txs[j])
    {
      if j != i {
        assert w'.txs[j] == w.txs[j];
        TxGoodFrame(w, w', w.txs[j]);
      }
    }
  }

  lemma HeldIsFree(w: World, i: nat)
    requires LocksExclusive(w.txs) && i < |w.txs|
    ensures forall lock :: lock in w.txs[i].held ==> Free(w, i, lock)
  {
    forall lock, j | lock in w.txs[i].held && 0 <= j < |w.txs| && j != i
      ensures lock !in w.txs[j].held
    {
      assert if i < j then w.txs[i].held !! w.txs[j].held else w.txs[j].held !! w.txs[i].held;
    }
  }

  /** Taking a lock adds it to those held. */
  lemma LockedHolds(db: Tables, tx: Tx)
    requires tx.phase.Locking? && tx.phase.pending != []
    ensures Locked(db, tx).held == tx.held + {tx.phase.pending[0]} && Locked(db, tx).phase.Locking?
  {
  }

  lemma LockedRows(db: Tables, tx: Tx)
    requires RowsHeld(db, tx) && tx.phase.Locking? && tx.phase.pending != []
    ensures RowsHeld(db, Locked(db, tx))
  {
  }

  lemma LockedPlan(db: Tables, tx: Tx)
    requires tx.phase.Locking? && tx.phase.pending != [] && KeysPlanned(tx)
    ensures KeysPlanned(Locked(db, tx))
  {
    hide CheckInputs, UsesKey;
    assert tx.phase.pending == [tx.phase.pending[0]] + tx.phase.pending[1..];
  }

  lemma LockedGood(w: World, w': World, tx: Tx)
    requires TxGood(w, tx) && tx.phase.Locking? && tx.phase.pending != [] && w'.db == w.db
    ensures TxGood(w', Locked(w.db, tx))
  {
    hide RowsHeld, KeysPlanned, StillGood;
    LockedRows(w.db, tx);
    LockedPlan(w.db, tx);
  }

  lemma AcquireKeeps(w: World, i: nat)
    requires WorldInvariant(w) && CanAcquire(w, i)
    ensures WorldInvariant(Perform(w, Acquire(i)))
  {
    var tx := w.txs[i];
    assert TxGood(w, tx);
    HeldIsFree(w, i);
    LockedGood(w, Perform(w, Acquire(i)), tx);
    hide LogGood, Past, TxGood, Free;
    LockedHolds(w.db, tx);
    Replaced(w, Perform(w, Acquire(i)), i);
  }

  lemma AbortKeeps(w: World, i: nat)
    requires WorldInvariant(w)
    ensures WorldInvariant(Perform(w, Abort(i)))
  {
    if i < |w.txs| {
      assert TxGood(w, w.txs[i]);
      hide LogGood, Past;
      Replaced(w, Perform(w, Abort(i)), i);
    }
  }

  lemma TickKeeps(w: World, now: Time)
    requires WorldInvariant(w)
    ensures WorldInvariant(Perform(w, Tick(now)))
  {
    hide LogGood, Past, TxGood;
    var w' := Perform(w, Tick(now));
    LogFrame(w, w');
    forall i | 0 <= i < |w'.txs|
      ensures TxGood(w', w'.txs[i])
    {
      TxGoodFrame(w, w', w.txs[i]);
    }
  }

  /** What a transaction computes from its view is good for the tables it was computed on. */
  lemma PreparedGood(w: World, tx: Tx, result: Tables)
    requires TxGood(w, tx) && tx.phase == Locking([]) && Past(w)
    requires Apply(View(w.db, tx), tx.command, w.nextId, w.clock) == Success(result)
    ensures var w' := w.(nextId := w.nextId + Need(tx.command));
      TxGood(w', tx.(phase := Prepared(View(w.db, tx), result, w.nextId, w.clock)))
  {
    var base, n := w.nextId, Need(tx.command);
    assert SameAnswers(View(w.db, tx), w.db, tx.command, base);
    assert Fresh(w.db, base, n);
    forall i | 0 <= i < |w.db.entries|
      ensures w.db.entries[i].id < base
    {
      var id := w.db.entries[i].id;
      assert id >= w.nextId ==> Unused(w.db, id);
    }
    assert forall key :: UsesKey(tx.command, key) ==> ReversalKey(key) in tx.held;
  }

  lemma PrepareKeeps(w: World, i: nat)
    requires WorldInvariant(w) && CanPrepare(w, i)
    ensures WorldInvariant(Perform(w, Prepare(i)))
  {
    var tx := w.txs[i];
    assert TxGood(w, tx);
    HeldIsFree(w, i);
    var w' := Perform(w, Prepare(i));
    match Apply(View(w.db, tx), tx.command, w.nextId, w.clock) {
      case Success(result) =>
        PreparedGood(w, tx, result);
        forall j | 0 <= j < |w.txs| && j != i && w.txs[j].phase.Prepared?
          ensures RangesApart(w.txs[j], w'.txs[i])
        {
          assert TxGood(w, w.txs[j]);
        }
      case Failure(_) =>
    }
    hide LogGood, Past, RowsHeld, StillGood;
    Replaced(w, w', i);
  }

  // -------------------------------------------------------------- commit

  lemma {:induction false} TouchedByBatch(inputs: seq<TransferInput>, account: Id)
    requires Posted(account) in BatchTouches(inputs)
    ensures IsEndpoint(inputs, account)
  {
    var n := |inputs| - 1;
    var rest, more := BatchTouches(inputs[..n]), [Posted(inputs[n].from), Posted(inputs[n].to)];
    assert BatchTouches(inputs) == rest + more;
    if Posted(account) in rest {
      TouchedByBatch(inputs[..n], account);
      var i :| 0 <= i < n && (inputs[..n][i].from == account || inputs[..n][i].to == account);
      assert inputs[i].from == account || inputs[i].to == account;
    } else {
      assert inputs[n].from == account || inputs[n].to == account;
    }
  }

  /** Every account a command posts to is one whose row the transaction holds. */
  lemma PostsAreHeld(db: Tables, tx: Tx, base: Id, at: Time, account: Id)
    requires RowsHeld(db, tx) && !tx.command.Reverse?
    requires Apply(View(db, tx), tx.command, base, at).Success?
    requires Posted(account) in Touches(db, tx.command)
    ensures account in tx.accounts
  {
    match tx.command
    case Batch(inputs) =>
      TouchedByBatch(inputs, account);
      PostAllKeys(View(db, tx), inputs, base, at);
    case Capture(hold, to) =>
      assert hold in tx.holds;
    case _ =>
  }

  /** The view's outcome is the outcome on the committed tables, written out as a merge. */
  lemma CommitIsApply(w: World, i: nat)
    requires WorldInvariant(w) && CanCommit(w, i)
    ensures var tx := w.txs[i]; var p := tx.phase;
      && Apply(w.db, tx.command, p.base, p.at) == Success(Merge(w.db, p.view, p.result))
      && Additions(p.view, p.result, tx.command, p.base)
      && SameRows(p.view, w.db)
  {
    var tx := w.txs[i];
    var p := tx.phase;
    assert TxGood(w, tx);
    assert SameRows(p.view, w.db);
    ReachableHoldsKeyed(w.log);
    ApplyLockstep(p.view, w.db, tx.command, p.base, p.at);
  }

  lemma ReachableHoldsKeyed(steps: seq<Step>)
    requires FreshRun(steps)
    ensures forall h :: h in Run(steps).holds ==> Run(steps).holds[h].id == h
  {
    ReachableInvariant(steps);
  }

  lemma CommitLog(w: World, i: nat)
    requires WorldInvariant(w) && CanCommit(w, i)
    ensures LogGood(CommitTx(w, i))
  {
    var tx := w.txs[i];
    var p := tx.phase;
    var s := Step(tx.command, p.base, p.at);
    CommitIsApply(w, i);
    assert TxGood(w, tx);
    assert (w.log + [s])[..|w.log|] == w.log;
    forall k | 0 <= k < |w.db.entries| && Posted(w.db.entries[k].account) in Touches(w.db, tx.command)
      ensures w.db.entries[k].id < p.base && w.db.entries[k].createdAt <= p.at
    {
      ViewIsView(w, i);
      PostsAreHeld(w.db, tx, p.base, p.at, w.db.entries[k].account);
    }
    assert LaterThan(w.db, s);
  }

  /** Success on the prepared view is success on the view of the tables as they are now. */
  lemma ViewIsView(w: World, i: nat)
    requires WorldInvariant(w) && CanCommit(w, i)
    ensures Apply(View(w.db, w.txs[i]), w.txs[i].command, w.txs[i].phase.base, w.txs[i].phase.at).Success?
  {
    var tx := w.txs[i];
    var p := tx.phase;
    assert TxGood(w, tx);
    var now := View(w.db, tx);
    assert SameRows(p.view, now) && SameAnswers(p.view, now, tx.command, p.base);
    ReachableHoldsKeyed(w.log);
    FreshView(w.db, tx, p.base, Need(tx.command));
    ApplyLockstep(p.view, now, tx.command, p.base, p.at);
  }

  lemma FreshView(db: Tables, tx: Tx, base: Id, n: nat)
    requires RowsHeld(db, tx) && Fresh(db, base, n)
    ensures Fresh(View(db, tx), base, n)
  {
    forall id: Id | base <= id < base + n
      ensures Unused(View(db, tx), id)
    {
      assert Unused(db, id);
    }
  }

  lemma {:induction false} MaxSequenceUnrelated(outbox: seq<OutboxEvent>, more: seq<OutboxEvent>, aggregate: Aggregate)
    requires forall k :: 0 <= k < |more| ==> more[k].aggregate != aggregate
    ensures MaxSequence(outbox + more, aggregate) == MaxSequence(outbox, aggregate)
  {
    if more == [] {
      assert outbox + more == outbox;
    } else {
      var n := |more| - 1;
      MaxSequenceUnrelated(outbox, more[..n], aggregate);
      assert (outbox + more)[..|outbox| + n] == outbox + more[..n];
    }
  }

  lemma HasConcat(transfers: seq<Transfer>, more: seq<Transfer>, id: Id)
    ensures HasReversal(transfers + more, id) <==> HasReversal(transfers, id) || HasReversal(more, id)
    ensures HasTransfer(transfers, id) ==> HasTransfer(transfers + more, id)
  {
    var all := transfers + more;
    assert forall k :: 0 <= k < |transfers| ==> all[k] == transfers[k];
    assert forall k :: 0 <= k < |more| ==> all[|transfers| + k] == more[k];
  }

  /** Two prepared transactions touch no aggregate in common and insert no link in common. */
  lemma ReachApart(w: World, i: nat, j: nat)
    requires WorldInvariant(w) && CanCommit(w, i) && CanCommit(w, j) && i != j
    ensures var s, t := w.txs[i], w.txs[j];
      && (forall aggregate :: !(Concerns(s.command, s.phase.base, aggregate) && Concerns(t.command, t.phase.base,
        aggregate)))
      && (forall key :: !(UsesKey(s.command, key) && UsesKey(t.command, key)))
      && (forall id :: !(InRange(s.command, s.phase.base, id) && InRange(t.command, t.phase.base, id)))
  {
    var s, t := w.txs[i], w.txs[j];
    assert TxGood(w, s) && TxGood(w, t);
    HeldIsFree(w, i);
    assert RangesApart(s, t);
    forall aggregate | Concerns(s.command, s.phase.base, aggregate)
      ensures !Concerns(t.command, t.phase.base, aggregate)
    {
      HoldNotInRange(w, s);
      HoldNotInRange(w, t);
      assert InRange(s.command, s.phase.base, aggregate.id) ==> Unused(w.db, aggregate.id);
      assert InRange(t.command, t.phase.base, aggregate.id) ==> Unused(w.db, aggregate.id);
    }
  }

  /** The hold a prepared command ends is one it holds locked. */
  lemma HoldNotInRange(w: World, tx: Tx)
    requires TxGood(w, tx) && tx.phase.Prepared?
    ensures tx.command.Void? || tx.command.Capture? ==>
      tx.command.hold in tx.holds && HoldRow(tx.command.hold) in tx.held && tx.command.hold in w.db.holds
  {
  }

  /** Another transaction's commit leaves a prepared transaction's outcome good. */
  lemma CommitKeepsOther(w: World, i: nat, j: nat)
    requires WorldInvariant(w) && CanCommit(w, i) && j < |w.txs| && i != j
    ensures TxGood(CommitTx(w, i), w.txs[j])
  {
    var w' := CommitTx(w, i);
    var t := w.txs[j];
    assert TxGood(w, t);
    if t.phase != Done {
      CommitKeepsRows(w, i, j);
    }
    if t.phase.Prepared? {
      CommitKeepsAnswers(w, i, j);
      CommitKeepsAfter(w, i, j);
      ReachApart(w, i, j);
      forall id: Id | t.phase.base <= id < t.phase.base + Need(t.command)
        ensures Unused(w'.db, id)
      {
        assert Unused(w.db, id) && InRange(t.command, t.phase.base, id);
        CommitKeepsUnused(w, i, id);
      }
    }
  }

  lemma CommitKeepsRows(w: World, i: nat, j: nat)
    requires WorldInvariant(w) && CanCommit(w, i) && j < |w.txs| && i != j && w.txs[j].phase != Done
    ensures RowsHeld(CommitTx(w, i).db, w.txs[j])
  {
    var s, t := w.txs[i], w.txs[j];
    CommitIsApply(w, i);
    assert TxGood(w, s) && TxGood(w, t);
    HeldIsFree(w, i);
    var p := s.phase;
    assert (s.command.Open? || s.command.PlaceHold?) ==> Unused(w.db, p.base);
    forall a | a in t.accounts
      ensures a !in p.result.accounts
    {
      assert AccountRow(a) in t.held;
    }
    forall h | h in t.holds
      ensures h !in p.result.holds
    {
      assert HoldRow(h) in t.held;
    }
  }

  lemma CommitKeepsAnswers(w: World, i: nat, j: nat)
    requires WorldInvariant(w) && CanCommit(w, i) && CanCommit(w, j) && i != j
    ensures SameAnswers(w.txs[j].phase.view, CommitTx(w, i).db, w.txs[j].command, w.txs[j].phase.base)
  {
    var s, t := w.txs[i], w.txs[j];
    var p, q := s.phase, t.phase;
    CommitIsApply(w, i);
    ReachApart(w, i, j);
    assert TxGood(w, t);
    var db' := CommitTx(w, i).db;
    var events, transfers := Appended(p.view.outbox, p.result.outbox), Appended(p.view.transfers, p.result.transfers);
    forall aggregate | Concerns(t.command, q.base, aggregate)
      ensures MaxSequence(q.view.outbox, aggregate) == MaxSequence(db'.outbox, aggregate)
    {
      forall k | 0 <= k < |events|
        ensures events[k].aggregate != aggregate
      {
        assert AddedEvent(p.result.outbox[|p.view.outbox| + k], s.command, p.base);
      }
      MaxSequenceUnrelated(w.db.outbox, events, aggregate);
    }
    forall key: Id | UsesKey(t.command, key)
      ensures HasReversal(q.view.transfers, key) <==> HasReversal(db'.transfers, key)
    {
      HasConcat(w.db.transfers, transfers, key);
      forall k | 0 <= k < |transfers|
        ensures transfers[k].reversed != Some(key)
      {
        assert AddedTransfer(p.result.transfers[|p.view.transfers| + k], s.command, p.base);
      }
    }
    forall id: Id | HasTransfer(q.view.transfers, id)
      ensures HasTransfer(db'.transfers, id)
    {
      HasConcat(w.db.transfers, transfers, id);
    }
  }

  /** A commit uses no id outside the range it drew. */
  lemma CommitKeepsUnused(w: World, i: nat, id: Id)
    requires WorldInvariant(w) && CanCommit(w, i)
    requires Unused(w.db, id) && !InRange(w.txs[i].command, w.txs[i].phase.base, id)
    ensures Unused(CommitTx(w, i).db, id)
  {
    CommitIsApply(w, i);
    var p := w.txs[i].phase;
    MergeKeepsUnused(w.db, p.view, p.result, w.txs[i].command, p.base, id);
  }

  lemma MergeKeepsUnused(l: Tables, v: Tables, v': Tables, c: Command, base: Id, id: Id)
    requires Additions(v, v', c, base) && SameRows(v, l)
    requires Unused(l, id) && !InRange(c, base, id)
    ensures Unused(Merge(l, v, v'), id)
  {
    hide Concerns, UsesKey;
    var db' := Merge(l, v, v');
    forall k | 0 <= k < |db'.transfers|
      ensures db'.transfers[k].id != id
    {
      if k >= |l.transfers| {
        assert AddedTransfer(v'.transfers[|v.transfers| + (k - |l.transfers|)], c, base);
      }
    }
    forall k | 0 <= k < |db'.outbox|
      ensures db'.outbox[k].id != id
    {
      if k >= |l.outbox| {
        assert AddedEvent(v'.outbox[|v.outbox| + (k - |l.outbox|)], c, base);
      }
    }
    assert forall k :: |l.entries| <= k < |db'.entries| ==>
      db'.entries[k] == v'.entries[|v.entries| + (k - |l.entries|)];
  }

  /** The entries a commit adds are on accounts it holds, within its ids and at its clock reading. */
  lemma CommittedEntries(w: World, i: nat, k: nat)
    requires WorldInvariant(w) && CanCommit(w, i)
    requires |w.db.entries| <= k < |CommitTx(w, i).db.entries|
    ensures CommitTx(w, i).db.entries[k].account in w.txs[i].accounts
    ensures CommitTx(w, i).db.entries[k].createdAt == w.txs[i].phase.at
  {
    var tx := w.txs[i];
    var p := tx.phase;
    var s := Step(tx.command, p.base, p.at);
    CommitIsApply(w, i);
    assert TxGood(w, tx);
    ReachableRowsKeyed(w.log);
    ApplyNewEntries(w.db, s);
    var e := Take(w.db, s).entries[k];
    assert NewEntry(e, Touches(w.db, s.command), s.base, s.base + Need(s.command), s.at);
    ViewIsView(w, i);
    PostsAreHeld(w.db, tx, p.base, p.at, e.account);
  }

  lemma CommitKeepsAfter(w: World, i: nat, j: nat)
    requires WorldInvariant(w) && CanCommit(w, i) && CanCommit(w, j) && i != j
    ensures After(CommitTx(w, i).db, w.txs[j], w.txs[j].phase.base, w.txs[j].phase.at)
  {
    var s, t := w.txs[i], w.txs[j];
    assert TxGood(w, s) && TxGood(w, t);
    HeldIsFree(w, i);
    var db' := CommitTx(w, i).db;
    forall k | 0 <= k < |db'.entries| && db'.entries[k].account in t.accounts
      ensures db'.entries[k].id < t.phase.base && db'.entries[k].createdAt <= t.phase.at
    {
      if k < |w.db.entries| {
        assert db'.entries[k] == w.db.entries[k];
      } else {
        CommittedEntries(w, i, k);
      }
    }
  }

  lemma CommitKeepsPast(w: World, i: nat)
    requires WorldInvariant(w) && CanCommit(w, i)
    ensures Past(CommitTx(w, i))
  {
    var w' := CommitTx(w, i);
    assert TxGood(w, w.txs[i]);
    forall id: Id | id >= w.nextId
      ensures Unused(w'.db, id)
    {
      CommitKeepsUnused(w, i, id);
    }
    forall k | 0 <= k < |w'.db.entries|
      ensures w'.db.entries[k].createdAt <= w.clock
    {
      if k < |w.db.entries| {
        assert w'.db.entries[k] == w.db.entries[k];
      } else {
        CommittedEntries(w, i, k);
      }
    }
  }

  lemma FinishedGood(w: World, w': World, tx: Tx)
    requires AllGood(w) && tx in w.txs
    ensures TxGood(w', Finished(tx))
  {
    var i :| 0 <= i < |w.txs| && w.txs[i] == tx;
    assert TxGood(w, w.txs[i]);
  }

  lemma CommitKeeps(w: World, i: nat)
    requires WorldInvariant(w)
    ensures WorldInvariant(Perform(w, Commit(i)))
  {
    if CanCommit(w, i) {
      var w' := CommitTx(w, i);
      CommitLog(w, i);
      CommitKeepsPast(w, i);
      FinishedGood(w, w', w.txs[i]);
      hide TxGood, LogGood, Past;
      forall j | 0 <= j < |w'.txs|
        ensures TxGood(w', w'.txs[j])
      {
        if j != i {
          CommitKeepsOther(w, i, j);
        }
      }
    }
  }

  // ------------------------------------------------------------ theorems

  lemma PerformKeeps(w: World, action: Action)
    requires WorldInvariant(w)
    ensures WorldInvariant(Perform(w, action))
  {
    hide WorldInvariant;
    match action
    case Begin(c) => BeginKeeps(w, c);
    case Acquire(i) => if CanAcquire(w, i) { AcquireKeeps(w, i); }
    case Prepare(i) => if CanPrepare(w, i) { PrepareKeeps(w, i); }
    case Commit(i) => CommitKeeps(w, i);
    case Abort(i) => AbortKeeps(w, i);
    case Tick(now) => TickKeeps(w, now);
  }

  lemma {:induction false} InterleavingInvariant(actions: seq<Action>)
    ensures WorldInvariant(Interleaved(actions))
  {
    if actions == [] {
      assert [] == START.log;
    } else {
      hide WorldInvariant;
      var n := |actions| - 1;
      InterleavingInvariant(actions[..n]);
      PerformKeeps(Interleaved(actions[..n]), actions[n]);
    }
  }

  /**
   Serializability, with no lost update: after any interleaving of any transactions,
   the committed tables are those of running the committed commands one after
   another in commit order, with fresh ids and per-account order, and so satisfy
   whatever is guaranteed of every such run. Reversals are logged as the batches
   they become; Reversals.InterleavedReversalChains follows their links.
  */
  lemma Serializable(actions: seq<Action>)
    ensures var w := Interleaved(actions);
      && w.db == Run(w.log)
      && FreshRun(w.log) && OrderedRun(w.log)
      && Invariant(w.db, History(w.log))
  {
    InterleavingInvariant(actions);
    ReachableInvariant(Interleaved(actions).log);
  }

  /** So the historical balance is right too: locks put ids and times in order account by account. */
  lemma InterleavedHistory(actions: seq<Action>, account: Id, t: Time, balance: int)
    requires account in Interleaved(actions).db.accounts
    requires BalanceAtTime(Interleaved(actions).db.entries, account, t, balance)
    ensures balance == SumUpTo(EntriesOf(Interleaved(actions).db.entries, account), t)
  {
    Serializable(actions);
    HistoricalBalanceIsSum(Interleaved(actions).log, account, t, balance);
  }

  /** And so is conservation: no interleaving makes or loses money, in any currency or on any account. */
  lemma InterleavedConservation(actions: seq<Action>)
    ensures var db := Interleaved(actions).db;
      && Lists(db.accountIds, db.accounts)
      && (forall currency :: CurrencyTotal(db.accountIds, db.accounts, currency) == 0)
      && (forall id :: id in db.accounts ==>
            db.accounts[id].balance == SumAmounts(EntriesOf(db.entries, id)) && db.accounts[id].Permitted())
  {
    Serializable(actions);
    Conservation(Interleaved(actions).log);
  }

  // ------------------------------------------------- what leaves a trace

  /** The transactions whose commits took place, in order. */
  function Committers(actions: seq<Action>): seq<nat> {
    if actions == [] then []
    else
      var n := |actions| - 1;
      var rest := Committers(actions[..n]);
      if actions[n].Commit? && CanCommit(Interleaved(actions[..n]), actions[n].tx) then rest + [actions[n].tx] else rest
  }

  /** Transactions stay, keep their command, and once done stay done. */
  ghost predicate TxsProgress(w: World, w': World) {
    && |w.txs| <= |w'.txs|
    && forall i :: 0 <= i < |w.txs| ==> TxProgress(w.txs[i], w'.txs[i])
  }

  predicate TxProgress(tx: Tx, tx': Tx) {
    tx'.command == tx.command && (tx.phase == Done ==> tx'.phase == Done)
  }

  lemma PerformProgress(w: World, action: Action)
    ensures TxsProgress(w, Perform(w, action))
  {
  }

  /** Commit k was made by transaction i, which is done, and logged its command. */
  predicate CommitLogged(w: World, k: nat, i: nat)
    requires k < |w.log|
  {
    i < |w.txs| && w.txs[i].phase == Done && w.log[k].command == w.txs[i].command
  }

  /**
   The log is exactly the commits that took place: one for each committed
   transaction, of its own command, in commit order, and no transaction commits
   twice. With Serializable: the committed tables owe nothing to any other.
  */
  lemma {:induction false} OnlyCommitsShow(actions: seq<Action>)
    ensures var w, committers := Interleaved(actions), Committers(actions);
      && |committers| == |w.log| && NoDuplicates(committers)
      && forall k :: 0 <= k < |committers| ==> CommitLogged(w, k, committers[k])
  {
    hide Perform, CanCommit;
    if actions != [] {
      var n := |actions| - 1;
      OnlyCommitsShow(actions[..n]);
      var w, w' := Interleaved(actions[..n]), Interleaved(actions);
      var committers, committers' := Committers(actions[..n]), Committers(actions);
      PerformLogs(w, actions[n]);
      PerformProgress(w, actions[n]);
      forall k | 0 <= k < |committers'|
        ensures CommitLogged(w', k, committers'[k])
      {
        if k < |committers| {
          assert CommitLogged(w, k, committers[k]);
          assert TxProgress(w.txs[committers[k]], w'.txs[committers[k]]);
        }
      }
    }
  }

  lemma PerformLogs(w: World, action: Action)
    ensures var w' := Perform(w, action);
      if action.Commit? && CanCommit(w, action.tx)
      then |w'.log| == |w.log| + 1 && w'.log[..|w.log|] == w.log && CommitLogged(w', |w.log|, action.tx) &&
        w.txs[action.tx].phase != Done
      else w'.log == w.log
  {
  }

  /** A transaction that ended without a commit, by its own refusal or by an abort, never commits later. */
  lemma {:induction false} EndedForGood(actions: seq<Action>, k: nat, i: nat)
    requires k <= |actions| && i < |Interleaved(actions[..k]).txs|
    requires Interleaved(actions[..k]).txs[i].phase == Done && i !in Committers(actions[..k])
    ensures i < |Interleaved(actions).txs| && Interleaved(actions).txs[i].phase == Done
    ensures i !in Committers(actions)
  {
    hide Perform, CanCommit;
    if k == |actions| {
      assert actions[..k] == actions;
    } else {
      var n := |actions| - 1;
      assert actions[..n][..k] == actions[..k];
      EndedForGood(actions[..n], k, i);
      var w := Interleaved(actions[..n]);
      PerformProgress(w, actions[n]);
      PerformLogs(w, actions[n]);
      assert TxProgress(w.txs[i], Interleaved(actions).txs[i]);
    }
  }
}
