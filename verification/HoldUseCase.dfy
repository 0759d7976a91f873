/** The hold and account use cases as they run, proved against the functions of module Ledger. */
module HoldUseCase {
  import opened Wrappers
  import opened Domain
  import opened Ledger
  import opened Databases
  import opened TransferUseCase

  /** End a transaction: commit unless a statement was refused. */
  method Finish(db: Database, failed: Option<Error>) returns (err: Option<Error>)
    modifies db
    ensures err.None? ==> failed.None? && db.State() == old(db.State())
    ensures err.Some? ==> db.State() == old(db.saved)
    ensures err.Some? && !db.MayFail(err.value) ==> failed == err
  {
    if failed.Some? {
      db.Rollback();
      return failed;
    }
    err := db.Commit();
  }

  method PlaceStatements(db: Database, account: Id, amount: int, base: Id, now: Time) returns (err: Option<Error>)
    requires db.Keyed() && amount > 0
    modifies db`holdIds, db`holds, db`accounts, db`outbox
    ensures db.Keyed()
    ensures err.None? ==> Ledger.HoldFunds(old(db.State()), account, amount, base, now) == Success(db.State())
    ensures err.Some? && !db.MayFail(err.value) ==>
      Ledger.HoldFunds(old(db.State()), account, amount, base, now) == Failure(err.value)
  {
    var locked := db.GetAccountForUpdate(account);
    if locked.Failure? {
      return Some(locked.error);
    }
    var a := locked.value;
    if a.ValidateDebit(amount).Fail? {
      return Some(a.ValidateDebit(amount).error);
    }
    err := db.CreateHold(Hold(base, account, amount, Active));
    if err.Some? {
      return;
    }
    err := db.UpdateEncumberedBalance(account, a.encumbered + amount);
    if err.Some? {
      return;
    }
    err := db.CreateEvent(base + 1, HoldAggregate(base), HoldCreated, None, now);
  }

  method HoldFunds(db: Database, account: Id, amount: int, base: Id, now: Time) returns (err: Option<Error>)
    requires db.Keyed()
    modifies db
    ensures db.Keyed()
    ensures err.None? ==> Ledger.HoldFunds(old(db.State()), account, amount, base, now) == Success(db.State())
    ensures err.Some? ==> db.State() == old(db.State())
    ensures err.Some? && !db.MayFail(err.value) ==>
      Ledger.HoldFunds(old(db.State()), account, amount, base, now) == Failure(err.value)
  {
    if amount <= 0 {
      return Some(InvalidAmount);
    }
    err := db.Begin();
    if err.Some? {
      return;
    }
    err := PlaceStatements(db, account, amount, base, now);
    err := Finish(db, err);
  }

  method VoidStatements(db: Database, hold: Id, base: Id, now: Time) returns (err: Option<Error>)
    requires db.Keyed()
    modifies db`holds, db`accounts, db`outbox
    ensures db.Keyed()
    ensures err.None? ==> Ledger.VoidHold(old(db.State()), hold, base, now) == Success(db.State())
    ensures err.Some? && !db.MayFail(err.value) ==>
      Ledger.VoidHold(old(db.State()), hold, base, now) == Failure(err.value)
  {
    var found := db.GetHoldForUpdate(hold);
    if found.Failure? {
      return Some(found.error);
    }
    var h := found.value;
    if h.status != Active {
      return Some(HoldNotActive);
    }
    var locked := db.GetAccountForUpdate(h.account);
    if locked.Failure? {
      return Some(locked.error);
    }
    err := db.UpdateHoldStatus(hold, Voided);
    if err.Some? {
      return;
    }
    var encumbered := locked.value.encumbered - h.amount;
    if encumbered < 0 {
      encumbered := 0;
    }
    err := db.UpdateEncumberedBalance(h.account, encumbered);
    if err.Some? {
      return;
    }
    err := db.CreateEvent(base, HoldAggregate(h.id), HoldVoided, None, now);
  }

  method VoidHold(db: Database, hold: Id, base: Id, now: Time) returns (err: Option<Error>)
    requires db.Keyed()
    modifies db
    ensures db.Keyed()
    ensures err.None? ==> Ledger.VoidHold(old(db.State()), hold, base, now) == Success(db.State())
    ensures err.Some? ==> db.State() == old(db.State())
    ensures err.Some? && !db.MayFail(err.value) ==>
      Ledger.VoidHold(old(db.State()), hold, base, now) == Failure(err.value)
  {
    err := db.Begin();
    if err.Some? {
      return;
    }
    err := VoidStatements(db, hold, base, now);
    err := Finish(db, err);
  }

  /** The ids of the hold's account and the target, ready for the ordered lock. */
  function CaptureIds(from: Id, to: Id): (r: seq<Id>)
    ensures Ascending(r)
    ensures forall id :: id in r <==> id == from || id == to
  {
    if from < to then [from, to] else if to < from then [to, from] else [from]
  }

  /** The debit of a capture: balance and encumbered balance move in one statement. */
  method CaptureDebit(db: Database, a: Account, t: Transfer, now: Time) returns (err: Option<Error>)
    requires db.Keyed() && a.id == t.from && a.id in db.accounts && db.accounts[a.id] == a
    modifies db`entries, db`accounts
    ensures db.Keyed()
    ensures err.None? ==>
      PostEntry(old(db.State()), t.id + 1, t.from, t.id, -t.amount, t.amount, now) == Success(db.State())
    ensures err.None? ==> db.accounts == old(db.accounts)[a.id := a.(balance := a.balance - t.amount,
      encumbered := a.encumbered - t.amount, version := a.version + 1)]
    ensures err.Some? && !db.MayFail(err.value) ==>
      PostEntry(old(db.State()), t.id + 1, t.from, t.id, -t.amount, t.amount, now) == Failure(err.value)
  {
    var balance := a.balance - t.amount;
    err := db.CreateEntry(Entry(t.id + 1, a.id, t.id, -t.amount, a.balance, balance, a.version + 1, now));
    if err.Some? {
      return;
    }
    err := db.SetAccount(a.id, balance, a.encumbered - t.amount);
  }

  /** Insert the capture transfer, its entries and both account rows; both rows were read before either is written. */
  method CapturePosts(db: Database, fromAccount: Account, toAccount: Account, t: Transfer,
      now: Time) returns (err: Option<Error>)
    requires db.Keyed()
    requires fromAccount.id == t.from && t.from in db.accounts && db.accounts[t.from] == fromAccount
    requires toAccount.id == t.to && t.to in db.accounts && db.accounts[t.to] == toAccount
    modifies db`transfers, db`entries, db`accounts
    ensures db.Keyed()
    ensures err.None? ==> Move(old(db.State()), t, t.amount, now) == Success(db.State())
    ensures err.Some? && !db.MayFail(err.value) ==> Move(old(db.State()), t, t.amount, now) == Failure(err.value)
  {
    hide PostEntry;
    err := db.CreateTransfer(t);
    if err.Some? {
      return;
    }
    err := CaptureDebit(db, fromAccount, t, now);
    if err.Some? {
      return;
    }
    err := PostOne(db, toAccount, t.id + 2, t.id, t.amount, now);
  }

  /** A capture's move, the hold's new status, and the event. */
  function MoveAndEnd(l: Tables, h: Hold, t: Transfer, now: Time): Result<Tables, Error>
    requires t.from in l.accounts && t.to in l.accounts
  {
    var l1 :- Move(l, t, h.amount, now);
    var l2 := l1.(holds := l1.holds[h.id := h.(status := Captured)]);
    Success(Emit(l2, t.id + 3, HoldAggregate(h.id), HoldCaptured, Some(t.id), now))
  }

  /** Once every check has passed, that is all of a capture. */
  lemma CheckedCaptures(l: Tables, hold: Id, to: Id, base: Id, now: Time)
    requires hold in l.holds && l.holds[hold].status == Active && l.holds[hold].id == hold
    requires l.holds[hold].account in l.accounts && to in l.accounts
    requires l.accounts[l.holds[hold].account].currency == l.accounts[to].currency
    requires l.accounts[to].ValidateCredit(l.holds[hold].amount).Pass?
    ensures var h := l.holds[hold];
      Ledger.CaptureHold(l, hold, to, base, now) ==
        MoveAndEnd(l, h, Transfer(base, h.account, to, h.amount, now, None), now)
  {
    hide Move, Emit;
  }

  /** The writes of a capture. */
  method CaptureWrites(db: Database, h: Hold, fromAccount: Account, toAccount: Account, t: Transfer, now: Time)
    returns (err: Option<Error>)
    requires db.Keyed() && t.from == h.account && t.amount == h.amount && h.id in db.holds && db.holds[h.id] == h
    requires fromAccount.id == t.from && t.from in db.accounts && db.accounts[t.from] == fromAccount
    requires toAccount.id == t.to && t.to in db.accounts && db.accounts[t.to] == toAccount
    modifies db`transfers, db`entries, db`holds, db`accounts, db`outbox
    ensures db.Keyed()
    ensures err.None? ==> MoveAndEnd(old(db.State()), h, t, now) == Success(db.State())
    ensures err.None? ==> db.transfers == old(db.transfers) + [t]
    ensures err.Some? && !db.MayFail(err.value) ==> MoveAndEnd(old(db.State()), h, t, now) == Failure(err.value)
  {
    hide Move, Emit;
    err := CapturePosts(db, fromAccount, toAccount, t, now);
    if err.Some? {
      return;
    }
    MoveAppends(old(db.State()), t, h.amount, now);
    err := db.UpdateHoldStatus(h.id, Captured);
    if err.Some? {
      return;
    }
    err := db.CreateEvent(t.id + 3, HoldAggregate(h.id), HoldCaptured, Some(t.id), now);
  }

  method CaptureStatements(db: Database, hold: Id, to: Id, base: Id, now: Time)
    returns (transfer: Option<Transfer>, err: Option<Error>)
    requires db.Keyed()
    modifies db`transfers, db`entries, db`holds, db`accounts, db`outbox
    ensures db.Keyed()
    ensures err.None? ==> Ledger.CaptureHold(old(db.State()), hold, to, base, now) == Success(db.State())
    ensures err.None? ==> transfer.Some? && db.transfers == old(db.transfers) + [transfer.value]
    ensures err.Some? && !db.MayFail(err.value) ==>
      Ledger.CaptureHold(old(db.State()), hold, to, base, now) == Failure(err.value)
  {
    transfer := None;
    var found := db.GetHoldForUpdate(hold);
    if found.Failure? {
      err := Some(found.error);
      return;
    }
    var h := found.value;
    if h.status != Active {
      err := Some(HoldNotActive);
      return;
    }
    var locked := db.GetAccountsForUpdate(CaptureIds(h.account, to));
    if locked.Failure? {
      err := Some(locked.error);
      return;
    }
    var accountMap := BuildAccountMap(locked.value);
    MapMirrorsRows(db, locked.value, CaptureIds(h.account, to), accountMap);
    if h.account !in accountMap || to !in accountMap {
      err := Some(AccountNotFound);
      return;
    }
    var fromAccount, toAccount := accountMap[h.account], accountMap[to];
    if fromAccount.currency != toAccount.currency {
      err := Some(CurrencyMismatch);
      return;
    }
    if toAccount.ValidateCredit(h.amount).Fail? {
      err := Some(toAccount.ValidateCredit(h.amount).error);
      return;
    }
    var t := Transfer(base, h.account, to, h.amount, now, None);
    CheckedCaptures(db.State(), hold, to, base, now);
    hide Ledger.CaptureHold, MoveAndEnd;
    err := CaptureWrites(db, h, fromAccount, toAccount, t, now);
    transfer := Some(t);
  }

  lemma MapMirrorsRows(db: Database, rows: seq<Account>, ids: seq<Id>, m: map<Id, Account>)
    requires db.Keyed()
    requires forall a :: a in rows <==> a.id in ids && a.id in db.accounts && db.accounts[a.id] == a
    requires forall a :: a in rows ==> a.id in m && m[a.id] == a
    requires forall id :: id in m ==> m[id] in rows && m[id].id == id
    ensures forall id :: id in ids ==> (id in m <==> id in db.accounts)
    ensures forall id :: id in m ==> id in db.accounts && m[id] == db.accounts[id]
  {
    forall id | id in ids && id in db.accounts
      ensures id in m
    {
      assert db.accounts[id] in rows;
    }
  }

  method CaptureHold(db: Database, hold: Id, to: Id, base: Id, now: Time)
    returns (transfer: Option<Transfer>, err: Option<Error>)
    requires db.Keyed()
    modifies db
    ensures db.Keyed()
    ensures err.None? ==> Ledger.CaptureHold(old(db.State()), hold, to, base, now) == Success(db.State())
    ensures err.None? ==> transfer.Some? && db.transfers == old(db.transfers) + [transfer.value]
    ensures err.Some? ==> db.State() == old(db.State())
    ensures err.Some? && !db.MayFail(err.value) ==>
      Ledger.CaptureHold(old(db.State()), hold, to, base, now) == Failure(err.value)
  {
    transfer := None;
    err := db.Begin();
    if err.Some? {
      return;
    }
    transfer, err := CaptureStatements(db, hold, to, base, now);
    err := Finish(db, err);
  }

  method CreateAccount(db: Database, currency: Currency, allowNegative: bool, allowPositive: bool,
      base: Id) returns (err: Option<Error>)
    requires db.Keyed()
    modifies db
    ensures db.Keyed()
    ensures err.None? ==> db.State() == OpenAccount(old(db.State()), currency, allowNegative, allowPositive, base)
    ensures err.Some? ==> db.MayFail(err.value) && db.State() == old(db.State())
  {
    err := db.Begin();
    if err.Some? {
      return;
    }
    err := db.InsertAccount(Account(base, currency, 0, 0, 0, allowNegative, allowPositive));
    err := Finish(db, err);
  }
}
