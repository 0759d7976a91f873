/**
 Lock order. Hold rows come before account rows, account rows are taken in id
 order, and the wait on the reversal index comes last; so somebody can always go
 on. Reversal links supplied by clients in bulk can escape the order; see ClientLinks.
*/
module DeadlockFreedom {
  import opened Wrappers
  import opened Domain
  import opened Ledger
  import opened TransferUseCase
  import opened HoldUseCase
  import opened Interleaving

  function Rank(lock: Lock): nat {
    match lock
    case HoldRow(_) => 0
    case AccountRow(_) => 1
    case ReversalKey(_) => 2
  }

  predicate Less(a: Lock, b: Lock) {
    Rank(a) < Rank(b) || (Rank(a) == Rank(b) && a.id < b.id)
  }

  predicate Climbing(locks: seq<Lock>) {
    forall i, j :: 0 <= i < j < |locks| ==> Less(locks[i], locks[j])
  }

  /** Reversal links inserted in id order; in particular at most one link, as ReverseTransfer makes. */
  predicate OrderedKeys(c: Command) {
    c.Batch? ==> Ascending(Keys(c.inputs))
  }

  /** What a transaction still waits for is above everything it holds. */
  ghost predicate TxOrdered(tx: Tx) {
    && OrderedKeys(tx.command)
    && match tx.phase
       case Done => tx.held == {}
       case Prepared(_, _, _, _) => true
       case Locking(pending) =>
         Climbing(pending) && forall lock, i :: lock in tx.held && 0 <= i < |pending| ==> Less(lock, pending[i])
  }

  ghost predicate AllOrdered(w: World) {
    forall i :: 0 <= i < |w.txs| ==> TxOrdered(w.txs[i])
  }

  lemma FirstLocksClimb(c: Command)
    requires OrderedKeys(c)
    ensures Climbing(FirstLocks(c))
  {
  }

  lemma ResolvedOrdered(db: Tables, c: Command)
    requires OrderedKeys(c) && Resolve(db, c).Some?
    ensures OrderedKeys(Resolve(db, c).value)
  {
    if c.Reverse? {
      var inputs := [ReversalOf(FindTransfer(db.transfers, c.original).value)];
      assert inputs[..0] == [];
      assert Keys(inputs) == AddUnseen([], inputs[0].reversed.value);
    }
  }

  lemma LockedOrdered(db: Tables, tx: Tx)
    requires TxOrdered(tx) && tx.phase.Locking? && tx.phase.pending != []
    ensures TxOrdered(Locked(db, tx))
  {
    var lock := tx.phase.pending[0];
    if lock.HoldRow? && lock.id in db.holds {
      var more := HoldAccountLocks(tx.command, db.holds[lock.id]);
      assert forall i :: 0 <= i < |more| ==> more[i].AccountRow?;
      assert forall held :: held in tx.held ==> Less(held, tx.phase.pending[0]);
    }
  }

  predicate BeginsOrdered(action: Action) {
    action.Begin? ==> OrderedKeys(action.command)
  }

  lemma PerformOrdered(w: World, action: Action)
    requires AllOrdered(w) && BeginsOrdered(action)
    ensures AllOrdered(Perform(w, action))
  {
    match action
    case Begin(c) =>
      if Resolve(w.db, c).Some? {
        ResolvedOrdered(w.db, c);
        FirstLocksClimb(Resolve(w.db, c).value);
      }
    case Acquire(i) =>
      if CanAcquire(w, i) {
        LockedOrdered(w.db, w.txs[i]);
      }
    case _ =>
  }

  lemma {:induction false} InterleavingOrdered(actions: seq<Action>)
    requires forall k :: 0 <= k < |actions| ==> BeginsOrdered(actions[k])
    ensures AllOrdered(Interleaved(actions))
  {
    if actions != [] {
      var n := |actions| - 1;
      InterleavingOrdered(actions[..n]);
      PerformOrdered(Interleaved(actions[..n]), actions[n]);
    }
  }

  predicate Waiting(tx: Tx) {
    tx.phase.Locking? && tx.phase.pending != []
  }

  function Wanted(tx: Tx): Lock
    requires Waiting(tx)
  {
    tx.phase.pending[0]
  }

  /** Of the waiting transactions, one whose wanted lock no other wanted lock is above. */
  lemma {:induction false} GreatestWait(txs: seq<Tx>, some: nat) returns (i: nat)
    requires some < |txs| && Waiting(txs[some])
    ensures i < |txs| && Waiting(txs[i])
    ensures forall k :: 0 <= k < |txs| && Waiting(txs[k]) ==> !Less(Wanted(txs[i]), Wanted(txs[k]))
  {
    var n := |txs| - 1;
    if exists k :: 0 <= k < n && Waiting(txs[k]) {
      var k :| 0 <= k < n && Waiting(txs[k]);
      i := GreatestWait(txs[..n], k);
      assert forall m :: 0 <= m < n && Waiting(txs[m]) ==> txs[..n][m] == txs[m] && !Less(Wanted(txs[i]),
        Wanted(txs[m]));
      if Waiting(txs[n]) && Less(Wanted(txs[i]), Wanted(txs[n])) {
        i := n;
      }
    } else {
      i := some;
    }
  }

  predicate CanGoOn(w: World, i: nat) {
    CanAcquire(w, i) || CanPrepare(w, i) || CanCommit(w, i)
  }

  /**
   Deadlock freedom: as long as some transaction is unfinished, some transaction can
   take its next lock, compute its outcome, or commit. No abort is needed.
  */
  lemma SomebodyGoesOn(w: World, unfinished: nat) returns (i: nat)
    requires AllOrdered(w)
    requires unfinished < |w.txs| && w.txs[unfinished].phase != Done
    ensures CanGoOn(w, i)
  {
    i := unfinished;
    if !CanGoOn(w, unfinished) {
      assert Waiting(w.txs[unfinished]);
      i := GreatestWait(w.txs, unfinished);
      if !CanAcquire(w, i) {
        var wanted := Wanted(w.txs[i]);
        var j :| 0 <= j < |w.txs| && j != i && wanted in w.txs[j].held;
        assert TxOrdered(w.txs[j]);
        i := j;
      }
    }
  }

  lemma DeadlockFree(actions: seq<Action>, unfinished: nat) returns (i: nat)
    requires forall k :: 0 <= k < |actions| ==> BeginsOrdered(actions[k])
    requires unfinished < |Interleaved(actions).txs| && Interleaved(actions).txs[unfinished].phase != Done
    ensures CanGoOn(Interleaved(actions), i)
  {
    InterleavingOrdered(actions);
    i := SomebodyGoesOn(Interleaved(actions), unfinished);
  }

  // ---------------------------------------------------------- completion

  /** Steps a transaction has left at most. */
  function Work(tx: Tx): nat {
    match tx.phase
    case Done => 0
    case Prepared(_, _, _, _) => 1
    case Locking(pending) => 2 + |pending| + (if pending != [] && pending[0].HoldRow? then 2 else 0)
  }

  function TotalWork(txs: seq<Tx>): nat {
    if txs == [] then 0 else TotalWork(txs[..|txs| - 1]) + Work(txs[|txs| - 1])
  }

  lemma {:induction false} TotalWorkUpdate(txs: seq<Tx>, i: nat, tx: Tx)
    requires i < |txs|
    ensures TotalWork(txs[i := tx]) == TotalWork(txs) - Work(txs[i]) + Work(tx)
  {
    var n := |txs| - 1;
    if i < n {
      TotalWorkUpdate(txs[..n], i, tx);
      assert txs[i := tx][..n] == txs[..n][i := tx];
    } else {
      assert txs[i := tx][..n] == txs[..n];
    }
  }

  function NextAction(w: World, i: nat): Action {
    if CanAcquire(w, i) then Acquire(i) else if CanPrepare(w, i) then Prepare(i) else Commit(i)
  }

  lemma GoingOnDoesWork(w: World, i: nat)
    requires AllOrdered(w) && CanGoOn(w, i)
    ensures Proceeds(NextAction(w, i))
    ensures TotalWork(Perform(w, NextAction(w, i)).txs) < TotalWork(w.txs)
    ensures |Perform(w, NextAction(w, i)).txs| == |w.txs|
  {
    var w' := Perform(w, NextAction(w, i));
    TotalWorkUpdate(w.txs, i, w'.txs[i]);
    assert w'.txs == w.txs[i := w'.txs[i]];
    LockingShrinks(w, i);
  }

  lemma LockingShrinks(w: World, i: nat)
    requires i < |w.txs| && TxOrdered(w.txs[i]) && CanGoOn(w, i)
    ensures Work(Perform(w, NextAction(w, i)).txs[i]) < Work(w.txs[i])
  {
    var tx := w.txs[i];
    if CanAcquire(w, i) {
      var lock := tx.phase.pending[0];
      if lock.HoldRow? && lock.id in w.db.holds {
        var more := HoldAccountLocks(tx.command, w.db.holds[lock.id]);
        assert |more| <= 2 && forall k :: 0 <= k < |more| ==> more[k].AccountRow?;
      } else if |tx.phase.pending| > 1 {
        assert Less(lock, tx.phase.pending[1]);
      }
    }
  }

  ghost predicate AllDone(w: World) {
    forall i :: 0 <= i < |w.txs| ==> w.txs[i].phase == Done
  }

  /** Only locks, computations and commits: no new transactions and no aborts. */
  predicate Proceeds(action: Action) {
    action.Acquire? || action.Prepare? || action.Commit?
  }

  lemma NeverBegins(action: Action)
    requires Proceeds(action)
    ensures BeginsOrdered(action)
  {
  }

  /** From every reachable world the open transactions can all be brought to their end without aborting any. */
  lemma {:induction false} RunsToCompletion(actions: seq<Action>) returns (more: seq<Action>)
    requires forall k :: 0 <= k < |actions| ==> BeginsOrdered(actions[k])
    ensures forall k :: 0 <= k < |more| ==> Proceeds(more[k])
    ensures |more| <= TotalWork(Interleaved(actions).txs)
    ensures AllDone(Interleaved(actions + more))
    decreases TotalWork(Interleaved(actions).txs)
  {
    hide Perform, CanGoOn, AllOrdered, NextAction, TotalWork, Proceeds;
    InterleavingOrdered(actions);
    var w := Interleaved(actions);
    if AllDone(w) {
      more := [];
      assert actions + more == actions;
    } else {
      var unfinished :| 0 <= unfinished < |w.txs| && w.txs[unfinished].phase != Done;
      var i := DeadlockFree(actions, unfinished);
      var action := NextAction(w, i);
      GoingOnDoesWork(w, i);
      var actions' := actions + [action];
      assert actions'[..|actions|] == actions;
      assert Interleaved(actions') == Perform(w, action);
      assert BeginsOrdered(action) by {
        NeverBegins(action);
      }
      var rest := RunsToCompletion(actions');
      more := [action] + rest;
      assert actions + more == actions' + rest;
    }
  }
}
