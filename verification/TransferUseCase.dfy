/**
 The transfer use case as it runs: accounts are locked and read once in id
 order, kept in memory, and written back as absolute values. Each method is
 proved against the function of module Ledger that rereads every row.
*/
module TransferUseCase {
  import opened Wrappers
  import opened Domain
  import opened Ledger
  import opened Projections
  import opened Databases

  predicate IsEndpoint(inputs: seq<TransferInput>, id: Id) {
    exists i :: 0 <= i < |inputs| && (inputs[i].from == id || inputs[i].to == id)
  }

  predicate Ascending(ids: seq<Id>) {
    forall i, j :: 0 <= i < j < |ids| ==> ids[i] < ids[j]
  }

  function AddUnseen(ids: seq<Id>, id: Id): (r: seq<Id>)
    requires NoDuplicates(ids)
    ensures NoDuplicates(r)
    ensures forall x :: x in r <==> x in ids || x == id
  {
    if id in ids then ids else ids + [id]
  }

  /** The endpoints of all transfers, each once, in order of first mention. */
  function Endpoints(inputs: seq<TransferInput>): (r: seq<Id>)
    ensures NoDuplicates(r)
    ensures forall id :: id in r <==> IsEndpoint(inputs, id)
  {
    if inputs == [] then []
    else
      var n := |inputs| - 1;
      EndpointsGrow(inputs, n);
      assert inputs[..n + 1] == inputs;
      AddUnseen(AddUnseen(Endpoints(inputs[..n]), inputs[n].from), inputs[n].to)
  }

  method CollectUniqueAccountIDs(inputs: seq<TransferInput>) returns (ids: seq<Id>)
    ensures ids == Endpoints(inputs)
    ensures NoDuplicates(ids)
    ensures forall id :: id in ids <==> IsEndpoint(inputs, id)
  {
    var seen: set<Id> := {};
    ids := [];
    for i := 0 to |inputs|
      invariant ids == Endpoints(inputs[..i])
      invariant forall id :: id in ids <==> id in seen
    {
      var t := inputs[i];
      if t.from !in seen {
        seen, ids := seen + {t.from}, ids + [t.from];
      }
      if t.to !in seen {
        seen, ids := seen + {t.to}, ids + [t.to];
      }
      assert inputs[..i + 1][..i] == inputs[..i];
    }
    assert inputs[..|inputs|] == inputs;
  }

  lemma EndpointsGrow(inputs: seq<TransferInput>, i: nat)
    requires i < |inputs|
    ensures forall id :: IsEndpoint(inputs[..i + 1], id) <==>
      IsEndpoint(inputs[..i], id) || id == inputs[i].from || id == inputs[i].to
  {
    forall id: Id
      ensures IsEndpoint(inputs[..i + 1], id) <==>
        IsEndpoint(inputs[..i], id) || id == inputs[i].from || id == inputs[i].to
    {
      var all, some := inputs[..i + 1], inputs[..i];
      assert all[i] == inputs[i] && forall k :: 0 <= k < i ==> all[k] == some[k];
    }
  }

  function InsertId(sorted: seq<Id>, id: Id): (r: seq<Id>)
    requires Ascending(sorted) && id !in sorted
    ensures Ascending(r)
    ensures forall x :: x in r <==> x in sorted || x == id
  {
    if sorted == [] then [id]
    else if id < sorted[0] then [id] + sorted
    else
      var first, tail := sorted[0], sorted[1..];
      assert sorted == [first] + tail;
      assert forall x :: x in tail ==> first < x;
      var rest := InsertId(tail, id);
      assert forall k :: 0 <= k < |rest| ==> rest[k] in rest;
      [first] + rest
  }

  function SortIds(ids: seq<Id>): (r: seq<Id>)
    requires NoDuplicates(ids)
    ensures Ascending(r)
    ensures forall x :: x in r <==> x in ids
  {
    if ids == [] then []
    else
      assert ids == ids[..|ids| - 1] + [ids[|ids| - 1]];
      InsertId(SortIds(ids[..|ids| - 1]), ids[|ids| - 1])
  }

  /** The in-memory accounts agree with the transaction's rows. */
  predicate InStep(accountMap: map<Id, Account>, rows: map<Id, Account>) {
    forall id :: id in accountMap ==> id in rows && accountMap[id] == rows[id]
  }

  method BuildAccountMap(accounts: seq<Account>) returns (m: map<Id, Account>)
    requires forall i, j :: 0 <= i < |accounts| && 0 <= j < |accounts| && accounts[i].id == accounts[j].id ==>
      accounts[i] == accounts[j]
    ensures forall a :: a in accounts ==> a.id in m && m[a.id] == a
    ensures forall id :: id in m ==> m[id] in accounts && m[id].id == id
  {
    m := map[];
    for i := 0 to |accounts|
      invariant forall j :: 0 <= j < i ==> accounts[j].id in m && m[accounts[j].id] == accounts[j]
      invariant forall id :: id in m ==> m[id] in accounts[..i] && m[id].id == id
    {
      m := m[accounts[i].id := accounts[i]];
      assert accounts[..i + 1] == accounts[..i] + [accounts[i]];
    }
  }

  /** Insert one entry and its account's new balance. */
  method PostOne(db: Database, a: Account, id: Id, transfer: Id, amount: int, now: Time) returns (err: Option<Error>)
    requires db.Keyed() && a.id in db.accounts && db.accounts[a.id] == a
    modifies db`entries, db`accounts
    ensures db.Keyed()
    ensures err.None? ==> PostEntry(old(db.State()), id, a.id, transfer, amount, 0, now) == Success(db.State())
    ensures err.None? ==> db.accounts == old(db.accounts)[a.id := a.(balance := a.balance + amount,
      version := a.version + 1)]
    ensures err.Some? && !db.MayFail(err.value) ==>
      PostEntry(old(db.State()), id, a.id, transfer, amount, 0, now) == Failure(err.value)
  {
    var balance := a.balance + amount;
    err := db.CreateEntry(Entry(id, a.id, transfer, amount, a.balance, balance, a.version + 1, now));
    if err.Some? {
      return;
    }
    err := db.UpdateBalance(a.id, balance);
  }

  /** Insert the transfer and post its debit, then its credit, advancing the in-memory accounts as each is written. */
  method PostBoth(db: Database, fromAccount: Account, toAccount: Account, t: Transfer, now: Time)
    returns (from': Account, to': Account, err: Option<Error>)
    requires db.Keyed() && t.from != t.to
    requires fromAccount.id == t.from && t.from in db.accounts && db.accounts[t.from] == fromAccount
    requires toAccount.id == t.to && t.to in db.accounts && db.accounts[t.to] == toAccount
    modifies db`transfers, db`entries, db`accounts
    ensures db.Keyed()
    ensures err.None? ==> Move(old(db.State()), t, 0, now) == Success(db.State())
    ensures err.None? ==> db.accounts == old(db.accounts)[t.from := from'][t.to := to']
    ensures err.Some? && !db.MayFail(err.value) ==> Move(old(db.State()), t, 0, now) == Failure(err.value)
  {
    hide InsertTransfer, PostEntry;
    from', to' := fromAccount, toAccount;
    err := db.CreateTransfer(t);
    if err.Some? {
      return;
    }
    err := PostOne(db, from', t.id + 1, t.id, -t.amount, now);
    if err.Some? {
      return;
    }
    from' := from'.(balance := from'.ApplyDebit(t.amount), version := from'.version + 1);
    err := PostOne(db, to', t.id + 2, t.id, t.amount, now);
    if err.Some? {
      return;
    }
    to' := to'.(balance := to'.ApplyCredit(t.amount), version := to'.version + 1);
  }

  /** A move and the event that announces it. */
  function MoveAndAnnounce(l: Tables, t: Transfer, now: Time): Result<Tables, Error>
    requires t.from in l.accounts && t.to in l.accounts
  {
    var l1 :- Move(l, t, 0, now);
    Success(Emit(l1, t.id + 3, TransferAggregate(t.id), TransferEventType(t), Some(t.id), now))
  }

  /** Once every check has passed, that is all of a transfer. */
  lemma CheckedPosts(l: Tables, input: TransferInput, base: Id, now: Time)
    requires input.from in l.accounts && input.to in l.accounts && CheckInput(input).Pass?
    requires l.accounts[input.from].currency == l.accounts[input.to].currency
    requires l.accounts[input.from].ValidateDebit(input.amount).Pass?
    requires l.accounts[input.to].ValidateCredit(input.amount).Pass?
    ensures PostTransfer(l, input, base, now) ==
      MoveAndAnnounce(l, Transfer(base, input.from, input.to, input.amount, now, input.reversed), now)
  {
    hide Move, Emit;
  }

  /** The writes of one transfer, event included. */
  method PostAndAnnounce(db: Database, fromAccount: Account, toAccount: Account, t: Transfer, now: Time)
    returns (from': Account, to': Account, err: Option<Error>)
    requires db.Keyed() && t.from != t.to
    requires fromAccount.id == t.from && t.from in db.accounts && db.accounts[t.from] == fromAccount
    requires toAccount.id == t.to && t.to in db.accounts && db.accounts[t.to] == toAccount
    modifies db`transfers, db`entries, db`accounts, db`outbox
    ensures db.Keyed()
    ensures err.None? ==> MoveAndAnnounce(old(db.State()), t, now) == Success(db.State())
    ensures err.None? ==> db.accounts == old(db.accounts)[t.from := from'][t.to := to']
    ensures err.None? ==> db.transfers == old(db.transfers) + [t]
    ensures err.Some? && !db.MayFail(err.value) ==> MoveAndAnnounce(old(db.State()), t, now) == Failure(err.value)
  {
    hide Move, Emit;
    from', to', err := PostBoth(db, fromAccount, toAccount, t, now);
    if err.Some? {
      return;
    }
    MoveAppends(old(db.State()), t, 0, now);
    err := db.CreateEvent(t.id + 3, TransferAggregate(t.id), TransferEventType(t), Some(t.id), now);
  }

  /** One transfer inside an open transaction, checked and computed from the in-memory accounts. */
  method ProcessTransfer(db: Database, accountMap: map<Id, Account>, input: TransferInput, base: Id, now: Time)
    returns (accountMap': map<Id, Account>, transfer: Option<Transfer>, err: Option<Error>)
    requires db.Keyed() && InStep(accountMap, db.accounts)
    requires input.from in db.accounts ==> input.from in accountMap
    requires input.to in db.accounts ==> input.to in accountMap
    modifies db`transfers, db`entries, db`accounts, db`outbox
    ensures db.Keyed()
    ensures err.None? ==> PostTransfer(old(db.State()), input, base, now) == Success(db.State())
    ensures err.None? ==> InStep(accountMap', db.accounts) && accountMap'.Keys == accountMap.Keys
    ensures err.None? ==> transfer.Some? && db.transfers == old(db.transfers) + [transfer.value]
    ensures err.Some? && !db.MayFail(err.value) ==>
      PostTransfer(old(db.State()), input, base, now) == Failure(err.value)
  {
    accountMap', transfer := accountMap, None;
    if input.from !in accountMap || input.to !in accountMap {
      err := Some(AccountNotFound);
      return;
    }
    var fromAccount, toAccount := accountMap[input.from], accountMap[input.to];
    if fromAccount.currency != toAccount.currency {
      err := Some(CurrencyMismatch);
      return;
    }
    if fromAccount.ValidateDebit(input.amount).Fail? {
      err := Some(fromAccount.ValidateDebit(input.amount).error);
      return;
    }
    if toAccount.ValidateCredit(input.amount).Fail? {
      err := Some(toAccount.ValidateCredit(input.amount).error);
      return;
    }
    var t := Transfer(base, input.from, input.to, input.amount, now, input.reversed);
    if t.Validate().Fail? {
      err := Some(t.Validate().error);
      return;
    }
    CheckedPosts(db.State(), input, base, now);
    hide PostTransfer, MoveAndAnnounce;
    fromAccount, toAccount, err := PostAndAnnounce(db, fromAccount, toAccount, t, now);
    if err.None? {
      accountMap', transfer := accountMap[input.from := fromAccount][input.to := toAccount], Some(t);
    }
  }

  lemma MoveAppends(l: Tables, t: Transfer, release: int, now: Time)
    requires t.from in l.accounts && t.to in l.accounts && Move(l, t, release, now).Success?
    ensures Move(l, t, release, now).value.transfers == l.transfers + [t]
    ensures Move(l, t, release, now).value.accounts.Keys == l.accounts.Keys
  {
  }

  /** A failure inside a batch is the batch's failure. */
  lemma {:induction false} PostAllFails(l: Tables, inputs: seq<TransferInput>, base: Id, now: Time, n: nat)
    requires n <= |inputs| && PostAll(l, inputs[..n], base, now).Failure?
    ensures PostAll(l, inputs, base, now) == Failure(PostAll(l, inputs[..n], base, now).error)
  {
    hide PostTransfer;
    if n < |inputs| {
      var m := |inputs| - 1;
      assert inputs[..m][..n] == inputs[..n];
      PostAllFails(l, inputs[..m], base, now, n);
    } else {
      assert inputs[..n] == inputs;
    }
  }

  /** The error a transaction on checked inputs ends in, or its tables. */
  function Processed(l: Tables, inputs: seq<TransferInput>, base: Id, now: Time): Result<Tables, Error> {
    if !AllKnown(l, inputs) then Failure(AccountNotFound) else PostAll(l, inputs, base, now)
  }

  /** Lock and read the accounts; None when some id has no row. */
  method LockAccounts(db: Database, accountIDs: seq<Id>) returns (r: Result<map<Id, Account>, Error>)
    requires db.Keyed() && Ascending(accountIDs)
    ensures r.Success? ==> InStep(r.value, db.accounts) && forall id :: id in accountIDs ==> id in r.value
    ensures r.Failure? && !db.MayFail(r.error) ==>
      r.error == AccountNotFound && exists i :: 0 <= i < |accountIDs| && accountIDs[i] !in db.accounts
  {
    var locked := db.GetAccountsForUpdate(accountIDs);
    if locked.Failure? {
      return Failure(locked.error);
    }
    if |locked.value| != |accountIDs| {
      return Failure(AccountNotFound);
    }
    var accountMap := BuildAccountMap(locked.value);
    forall id | id in accountIDs
      ensures id in accountMap
    {
      assert db.accounts[id] in locked.value;
    }
    return Success(accountMap);
  }

  lemma PostNone(l: Tables, inputs: seq<TransferInput>, base: Id, now: Time)
    ensures PostAll(l, inputs[..0], base, now) == Success(l)
  {
  }

  lemma PostOneMore(l: Tables, inputs: seq<TransferInput>, base: Id, now: Time, i: nat)
    requires i < |inputs| && PostAll(l, inputs[..i], base, now).Success?
    ensures PostAll(l, inputs[..i + 1], base, now) ==
      PostTransfer(PostAll(l, inputs[..i], base, now).value, inputs[i], base + 4 * i, now)
  {
    hide PostTransfer;
    assert inputs[..i + 1][..i] == inputs[..i];
  }

  predicate EndpointsIn(inputs: seq<TransferInput>, accountMap: map<Id, Account>) {
    forall i :: 0 <= i < |inputs| ==> inputs[i].from in accountMap && inputs[i].to in accountMap
  }

  /** Process each transfer in turn; the locked accounts stay in step with the rows throughout. */
  method ProcessAll(db: Database, locked: map<Id, Account>, inputs: seq<TransferInput>, base: Id, now: Time)
    returns (accountMap: map<Id, Account>, transfers: seq<Transfer>, err: Option<Error>)
    requires db.Keyed() && InStep(locked, db.accounts) && EndpointsIn(inputs, locked)
    modifies db`transfers, db`entries, db`accounts, db`outbox
    ensures db.Keyed()
    ensures err.None? ==> InStep(accountMap, db.accounts) && accountMap.Keys == locked.Keys
    ensures err.None? ==> PostAll(old(db.State()), inputs, base, now) == Success(db.State())
    ensures err.None? ==> db.transfers == old(db.transfers) + transfers && |transfers| == |inputs|
    ensures err.Some? && !db.MayFail(err.value) ==> PostAll(old(db.State()), inputs, base, now) == Failure(err.value)
  {
    hide PostTransfer, PostAll, InStep;
    transfers := [];
    accountMap := locked;
    PostNone(db.State(), inputs, base, now);
    for i := 0 to |inputs|
      invariant db.Keyed() && InStep(accountMap, db.accounts) && accountMap.Keys == locked.Keys
      invariant PostAll(old(db.State()), inputs[..i], base, now) == Success(db.State())
      invariant db.transfers == old(db.transfers) + transfers && |transfers| == i
    {
      PostOneMore(old(db.State()), inputs, base, now, i);
      var transfer;
      accountMap, transfer, err := ProcessTransfer(db, accountMap, inputs[i], base + 4 * i, now);
      if err.Some? {
        if !db.MayFail(err.value) {
          PostAllFails(old(db.State()), inputs, base, now, i + 1);
        }
        return;
      }
      transfers := transfers + [transfer.value];
    }
    assert inputs[..|inputs|] == inputs;
    err := None;
  }

  /** The transaction's statements, between Begin and Commit. */
  method RunStatements(db: Database, inputs: seq<TransferInput>, accountIDs: seq<Id>, base: Id, now: Time)
    returns (transfers: seq<Transfer>, err: Option<Error>)
    requires db.Keyed()
    requires Ascending(accountIDs) && forall id :: id in accountIDs <==> IsEndpoint(inputs, id)
    modifies db`transfers, db`entries, db`accounts, db`outbox
    ensures db.Keyed()
    ensures err.None? ==> Processed(old(db.State()), inputs, base, now) == Success(db.State())
    ensures err.None? ==> db.transfers == old(db.transfers) + transfers && |transfers| == |inputs|
    ensures err.Some? && !db.MayFail(err.value) ==> Processed(old(db.State()), inputs, base, now) == Failure(err.value)
  {
    hide PostAll;
    transfers := [];
    KnownByIds(db.State(), inputs, accountIDs);
    var locked := LockAccounts(db, accountIDs);
    if locked.Failure? {
      err := Some(locked.error);
      return;
    }
    forall i | 0 <= i < |inputs|
      ensures inputs[i].from in locked.value && inputs[i].to in locked.value
    {
      assert IsEndpoint(inputs, inputs[i].from) && IsEndpoint(inputs, inputs[i].to);
    }
    var _, posted, failed := ProcessAll(db, locked.value, inputs, base, now);
    transfers, err := posted, failed;
  }

  lemma KnownByIds(l: Tables, inputs: seq<TransferInput>, ids: seq<Id>)
    requires forall id :: id in ids <==> IsEndpoint(inputs, id)
    ensures AllKnown(l, inputs) <==> forall i :: 0 <= i < |ids| ==> ids[i] in l.accounts
  {
    if forall i :: 0 <= i < |ids| ==> ids[i] in l.accounts {
      forall i | 0 <= i < |inputs|
        ensures inputs[i].from in l.accounts && inputs[i].to in l.accounts
      {
        assert IsEndpoint(inputs, inputs[i].from) && IsEndpoint(inputs, inputs[i].to);
      }
    }
    if AllKnown(l, inputs) {
      forall i | 0 <= i < |ids|
        ensures ids[i] in l.accounts
      {
        assert IsEndpoint(inputs, ids[i]);
      }
    }
  }

  method ExecuteTransferTransaction(db: Database, inputs: seq<TransferInput>, accountIDs: seq<Id>, base: Id, now: Time)
    returns (transfers: seq<Transfer>, err: Option<Error>)
    requires db.Keyed()
    requires Ascending(accountIDs) && forall id :: id in accountIDs <==> IsEndpoint(inputs, id)
    modifies db
    ensures db.Keyed()
    ensures err.None? ==> Processed(old(db.State()), inputs, base, now) == Success(db.State())
    ensures err.None? ==> db.transfers == old(db.transfers) + transfers && |transfers| == |inputs|
    ensures err.Some? ==> db.State() == old(db.State()) && transfers == []
    ensures err.Some? && !db.MayFail(err.value) ==> Processed(old(db.State()), inputs, base, now) == Failure(err.value)
  {
    transfers := [];
    err := db.Begin();
    if err.Some? {
      return;
    }
    transfers, err := RunStatements(db, inputs, accountIDs, base, now);
    if err.Some? {
      transfers := [];
      db.Rollback();
      return;
    }
    err := db.Commit();
    if err.Some? {
      transfers := [];
    }
  }

  /** Input i is the first that cannot be a transfer, for this reason. */
  predicate FirstRefused(inputs: seq<TransferInput>, i: nat, error: Error)
    requires i < |inputs|
  {
    && (forall j :: 0 <= j < i ==> inputs[j].from != inputs[j].to && inputs[j].amount > 0)
    && (inputs[i].from == inputs[i].to ==> error == SameAccount)
    && (inputs[i].from != inputs[i].to ==> inputs[i].amount <= 0 && error == InvalidAmount)
  }

  /** The check of every input before any transaction starts. */
  method ValidateInputs(inputs: seq<TransferInput>) returns (check: Check<Error>)
    ensures check == CheckInputs(inputs)
    ensures check.Pass? <==> forall i :: 0 <= i < |inputs| ==> inputs[i].from != inputs[i].to && inputs[i].amount > 0
    ensures check.Fail? ==> exists i :: 0 <= i < |inputs| && FirstRefused(inputs, i, check.error)
  {
    for i := 0 to |inputs|
      invariant CheckInputs(inputs[..i]) == Pass
      invariant forall j :: 0 <= j < i ==> inputs[j].from != inputs[j].to && inputs[j].amount > 0
    {
      assert inputs[..i + 1][..i] == inputs[..i];
      if inputs[i].from == inputs[i].to {
        FirstFailure(inputs, i + 1);
        assert FirstRefused(inputs, i, SameAccount);
        return Fail(SameAccount);
      }
      if inputs[i].amount <= 0 {
        FirstFailure(inputs, i + 1);
        assert FirstRefused(inputs, i, InvalidAmount);
        return Fail(InvalidAmount);
      }
    }
    assert inputs[..|inputs|] == inputs;
    return Pass;
  }

  lemma {:induction false} FirstFailure(inputs: seq<TransferInput>, n: nat)
    requires n <= |inputs| && CheckInputs(inputs[..n]).Fail?
    ensures CheckInputs(inputs) == CheckInputs(inputs[..n])
  {
    if n < |inputs| {
      assert inputs[..|inputs| - 1][..n] == inputs[..n];
      FirstFailure(inputs[..|inputs| - 1], n);
    } else {
      assert inputs[..n] == inputs;
    }
  }

  const MAX_RETRIES: nat := 3

  /** The last failure is returned because it is no reason to try again, the fourth, or one too many for the backoff. */
  predicate GaveUp(failures: seq<Error>, error: Error, patience: nat -> bool)
    requires failures != []
  {
    && error == failures[|failures| - 1]
    && (error == Deadlock || error == SerializationFailure ==> |failures| == 4 || !patience(|failures|))
  }

  /**
   Run the transaction, again after deadlocks and serialization failures. Attempt k
   draws ids from ids(k) and reads the clock as clock(k); after failure k the backoff
   waits, or gives up on elapsed time or a cancelled context, as patience(k) says;
   failures lists the errors of the attempts that failed.
  */
  method RetryTransaction(db: Database, inputs: seq<TransferInput>, accountIDs: seq<Id>, ids: nat -> Id,
      clock: nat -> Time, patience: nat -> bool)
    returns (transfers: seq<Transfer>, err: Option<Error>, failures: seq<Error>)
    requires db.Keyed()
    requires Ascending(accountIDs) && forall id :: id in accountIDs <==> IsEndpoint(inputs, id)
    modifies db
    ensures db.Keyed()
    ensures err.None? ==>
      Processed(old(db.State()), inputs, ids(|failures|), clock(|failures|)) == Success(db.State())
    ensures err.None? ==> db.transfers == old(db.transfers) + transfers && |transfers| == |inputs|
    ensures err.Some? ==> db.State() == old(db.State()) && transfers == [] && failures != []
    ensures err.Some? && !db.MayFail(err.value) ==>
      Processed(old(db.State()), inputs, ids(|failures| - 1), clock(|failures| - 1)) == Failure(err.value)
    ensures |failures| <= 4 && (err.None? ==> |failures| <= 3)
    ensures err.Some? && failures != [] ==> GaveUp(failures, err.value, patience)
    ensures forall k :: 0 <= k < |failures| - (if err.Some? then 1 else 0) ==>
      failures[k] == Deadlock || failures[k] == SerializationFailure
  {
    hide Processed, Ascending, IsEndpoint;
    transfers, failures := [], [];
    ghost var before := db.State();
    while true
      invariant db.Keyed() && db.State() == before
      invariant |failures| <= MAX_RETRIES
      invariant forall k :: 0 <= k < |failures| ==> failures[k].Retryable()
      decreases MAX_RETRIES - |failures|
    {
      var attempt := |failures|;
      transfers, err := ExecuteTransferTransaction(db, inputs, accountIDs, ids(attempt), clock(attempt));
      if err.None? {
        return;
      }
      failures := failures + [err.value];
      if !err.value.Retryable() || |failures| > MAX_RETRIES || !patience(|failures|) {
        return;
      }
    }
  }

  /** The whole use case: inputs checked, accounts collected and sorted, the transaction run and rerun. */
  method CreateBatchTransfer(db: Database, inputs: seq<TransferInput>, ids: nat -> Id, clock: nat -> Time,
      patience: nat -> bool)
    returns (transfers: seq<Transfer>, err: Option<Error>, failures: seq<Error>)
    requires db.Keyed()
    modifies db
    ensures db.Keyed()
    // one committed run: its tables and exactly its transfers are what the caller gets
    ensures err.None? ==>
      CreateBatch(old(db.State()), inputs, ids(|failures|), clock(|failures|)) == Success(db.State())
    ensures err.None? ==> db.transfers == old(db.transfers) + transfers && |transfers| == |inputs|
    // no committed run: no trace
    ensures err.Some? ==> db.State() == old(db.State()) && transfers == []
    ensures err.Some? && !db.MayFail(err.value) ==>
      exists k: nat :: k <= |failures| && CreateBatch(old(db.State()), inputs, ids(k), clock(k)) == Failure(err.value)
    // bounded reruns, each after a retryable failure
    ensures |failures| <= 4 && (err.None? ==> |failures| <= 3)
    ensures err.Some? && failures != [] ==> GaveUp(failures, err.value, patience)
    ensures forall k :: 0 <= k < |failures| - (if err.Some? then 1 else 0) ==>
      failures[k] == Deadlock || failures[k] == SerializationFailure
  {
    hide PostAll, AllKnown;
    transfers, failures := [], [];
    var check := ValidateInputs(inputs);
    if check.Fail? {
      assert CreateBatch(old(db.State()), inputs, ids(0), clock(0)) == Failure(check.error);
      err := Some(check.error);
      return;
    }
    var accountIDs := CollectUniqueAccountIDs(inputs);
    transfers, err, failures := RetryTransaction(db, inputs, SortIds(accountIDs), ids, clock, patience);
  }

  method ReverseTransfer(db: Database, original: Id, ids: nat -> Id, clock: nat -> Time, patience: nat -> bool)
    returns (transfer: Option<Transfer>, err: Option<Error>, failures: seq<Error>)
    requires db.Keyed()
    modifies db
    ensures db.Keyed()
    ensures err.None? ==>
      Apply(old(db.State()), Reverse(original), ids(|failures|), clock(|failures|)) == Success(db.State())
    ensures err.None? ==> transfer.Some? && db.transfers == old(db.transfers) + [transfer.value]
    ensures err.Some? ==> db.State() == old(db.State())
    ensures err.Some? && failures != [] ==> GaveUp(failures, err.value, patience)
    ensures err.Some? && !db.MayFail(err.value) ==>
      exists k: nat :: k <= |failures| && Apply(old(db.State()), Reverse(original), ids(k),
        clock(k)) == Failure(err.value)
  {
    transfer, failures := None, [];
    var found := db.GetTransfer(original);
    if found.Failure? {
      err := Some(found.error);
      assert !db.MayFail(found.error) ==>
        Apply(old(db.State()), Reverse(original), ids(0), clock(0)) == Failure(found.error);
      return;
    }
    var transfers;
    transfers, err, failures := CreateBatchTransfer(db, [ReversalOf(found.value)], ids, clock, patience);
    if err.None? {
      transfer := Some(transfers[0]);
    } else if !db.MayFail(err.value) {
      ghost var k: nat :| k <= |failures| && CreateBatch(old(db.State()), [ReversalOf(found.value)], ids(k),
          clock(k)) == Failure(err.value);
      assert Apply(old(db.State()), Reverse(original), ids(k), clock(k)) == Failure(err.value);
    }
  }
}
