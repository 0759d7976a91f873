/**
 The database as one transaction sees it: tables that statements change in place,
 and the contents to go back to on rollback. Unless the database is healthy, any
 statement, and the commit, may fail for reasons outside the tables; it then
 changes nothing.
*/
module Databases {
  import opened Wrappers
  import opened Domain
  import opened Ledger

  class Database {
    var accountIds: seq<Id>
    var accounts: map<Id, Account>
    var transfers: seq<Transfer>
    var entries: seq<Entry>
    var holdIds: seq<Id>
    var holds: map<Id, Hold>
    var outbox: seq<OutboxEvent>
    var saved: Tables
    /** Nothing fails for reasons outside the tables. */
    const healthy: bool

    function State(): Tables
      reads this
    {
      Tables(accountIds, accounts, transfers, entries, holdIds, holds, outbox)
    }

    /** Rows are keyed by their own id column. */
    predicate Keyed()
      reads this
    {
      && (forall id :: id in accounts ==> accounts[id].id == id)
      && (forall id :: id in holds ==> holds[id].id == id)
    }

    /** Errors that a statement can return whatever the tables hold. */
    predicate MayFail(e: Error) {
      e.IsFault() && !healthy
    }

    constructor (healthy: bool)
      ensures State() == EMPTY && Keyed() && this.healthy == healthy
    {
      this.healthy := healthy;
      accountIds, accounts, transfers, entries := [], map[], [], [];
      holdIds, holds, outbox, saved := [], map[], [], EMPTY;
    }

    method Fault() returns (err: Option<Error>)
      ensures err.Some? ==> MayFail(err.value)
    {
      if healthy {
        err := None;
      } else if * {
        err := Some(Deadlock);
      } else if * {
        err := Some(SerializationFailure);
      } else if * {
        err := Some(Unavailable);
      } else {
        err := None;
      }
    }

    method Begin() returns (err: Option<Error>)
      modifies this`saved
      ensures err.None? ==> saved == State()
      ensures err.Some? ==> MayFail(err.value)
    {
      err := Fault();
      if err.None? {
        saved := State();
      }
    }

    method Rollback()
      modifies this
      ensures State() == old(saved) == saved
    {
      accountIds, accounts, transfers, entries := saved.accountIds, saved.accounts, saved.transfers, saved.entries;
      holdIds, holds, outbox := saved.holdIds, saved.holds, saved.outbox;
    }

    /** A failed commit leaves what a rollback leaves. */
    method Commit() returns (err: Option<Error>)
      modifies this
      ensures saved == old(saved)
      ensures err.None? ==> State() == old(State())
      ensures err.Some? ==> MayFail(err.value) && State() == saved
    {
      err := Fault();
      if err.Some? {
        Rollback();
      }
    }

    // ------------------------------------------------------------ accounts

    method InsertAccount(a: Account) returns (err: Option<Error>)
      modifies this`accountIds, this`accounts
      ensures err.None? ==> State() == old(State()).(accountIds := old(accountIds) + [a.id],
        accounts := old(accounts)[a.id := a])
      ensures err.Some? ==> MayFail(err.value) && State() == old(State())
    {
      err := Fault();
      if err.None? {
        accountIds, accounts := accountIds + [a.id], accounts[a.id := a];
      }
    }

    /** SELECT ... WHERE id = $1 FOR UPDATE */
    method GetAccountForUpdate(id: Id) returns (r: Result<Account, Error>)
      ensures r.Success? ==> id in accounts && r.value == accounts[id]
      ensures r.Failure? ==> MayFail(r.error) || (id !in accounts && r.error == AccountNotFound)
    {
      var err := Fault();
      if err.Some? {
        return Failure(err.value);
      }
      if id !in accounts {
        return Failure(AccountNotFound);
      }
      return Success(accounts[id]);
    }

    /** SELECT ... WHERE id = ANY($1) ORDER BY id FOR UPDATE, the wanted ids being in order already. */
    method GetAccountsForUpdate(ids: seq<Id>) returns (r: Result<seq<Account>, Error>)
      requires Keyed()
      requires forall i, j :: 0 <= i < j < |ids| ==> ids[i] < ids[j]
      ensures r.Failure? ==> MayFail(r.error)
      ensures r.Success? ==> |r.value| <= |ids|
      ensures r.Success? ==> (|r.value| == |ids| <==> forall i :: 0 <= i < |ids| ==> ids[i] in accounts)
      ensures r.Success? ==> forall a :: a in r.value <==> a.id in ids && a.id in accounts && accounts[a.id] == a
    {
      var err := Fault();
      if err.Some? {
        return Failure(err.value);
      }
      var rows: seq<Account> := [];
      for i := 0 to |ids|
        invariant |rows| <= i
        invariant |rows| == i <==> forall j :: 0 <= j < i ==> ids[j] in accounts
        invariant forall a :: a in rows <==> a.id in ids[..i] && a.id in accounts && accounts[a.id] == a
      {
        if ids[i] in accounts {
          rows := rows + [accounts[ids[i]]];
        }
        assert ids[..i + 1] == ids[..i] + [ids[i]];
      }
      assert ids[..|ids|] == ids;
      return Success(rows);
    }

    method SetAccount(id: Id, balance: int, encumbered: int) returns (err: Option<Error>)
      requires Keyed() && id in accounts
      modifies this`accounts
      ensures Keyed()
      ensures err.None? ==> UpdateAccount(old(State()), id, balance, encumbered) == Success(State())
      ensures err.Some? ==> State() == old(State())
      ensures err.Some? && !MayFail(err.value) ==>
        UpdateAccount(old(State()), id, balance, encumbered) == Failure(err.value)
    {
      err := Fault();
      if err.Some? {
        return;
      }
      var row := accounts[id].(balance := balance, encumbered := encumbered, version := accounts[id].version + 1);
      if !row.Permitted() {
        return Some(AccountsCheck);
      }
      accounts := accounts[id := row];
    }

    method UpdateBalance(id: Id, balance: int) returns (err: Option<Error>)
      requires Keyed() && id in accounts
      modifies this`accounts
      ensures Keyed()
      ensures err.None? ==> UpdateAccount(old(State()), id, balance, old(accounts[id].encumbered)) == Success(State())
      ensures err.Some? ==> State() == old(State())
      ensures err.Some? && !MayFail(err.value) ==>
        UpdateAccount(old(State()), id, balance, old(accounts[id].encumbered)) == Failure(err.value)
    {
      err := SetAccount(id, balance, accounts[id].encumbered);
    }

    method UpdateEncumberedBalance(id: Id, encumbered: int) returns (err: Option<Error>)
      requires Keyed() && id in accounts
      modifies this`accounts
      ensures Keyed()
      ensures err.None? ==> UpdateAccount(old(State()), id, old(accounts[id].balance), encumbered) == Success(State())
      ensures err.Some? ==> State() == old(State())
      ensures err.Some? && !MayFail(err.value) ==>
        UpdateAccount(old(State()), id, old(accounts[id].balance), encumbered) == Failure(err.value)
    {
      err := SetAccount(id, accounts[id].balance, encumbered);
    }

    // ------------------------------------------- transfers, entries, events

    method GetTransfer(id: Id) returns (r: Result<Transfer, Error>)
      ensures r.Success? ==> FindTransfer(transfers, id) == Some(r.value)
      ensures r.Failure? ==> MayFail(r.error) || (FindTransfer(transfers, id) == None && r.error == TransferNotFound)
    {
      var err := Fault();
      if err.Some? {
        return Failure(err.value);
      }
      var found := FindTransfer(transfers, id);
      match found {
        case None => return Failure(TransferNotFound);
        case Some(t) => return Success(t);
      }
    }

    method CreateTransfer(t: Transfer) returns (err: Option<Error>)
      modifies this`transfers
      ensures err.None? ==> InsertTransfer(old(State()), t) == Success(State())
      ensures err.Some? ==> State() == old(State())
      ensures err.Some? && !MayFail(err.value) ==> InsertTransfer(old(State()), t) == Failure(err.value)
    {
      err := Fault();
      if err.Some? {
        return;
      }
      if t.amount <= 0 || t.from == t.to {
        return Some(TransfersCheck);
      }
      if t.reversed.Some? && HasReversal(transfers, t.reversed.value) {
        return Some(TransferAlreadyReversed);
      }
      if t.reversed.Some? && t.reversed.value != t.id && !HasTransfer(transfers, t.reversed.value) {
        return Some(ReversedTransferMissing);
      }
      transfers := transfers + [t];
    }

    method CreateEntry(e: Entry) returns (err: Option<Error>)
      modifies this`entries
      ensures err.None? ==> State() == old(State()).(entries := old(entries) + [e])
      ensures err.Some? ==> MayFail(err.value) && State() == old(State())
    {
      err := Fault();
      if err.None? {
        entries := entries + [e];
      }
    }

    method CreateEvent(id: Id, aggregate: Aggregate, eventType: EventType, transfer: Option<Id>,
        now: Time) returns (err: Option<Error>)
      modifies this`outbox
      ensures err.None? ==> State() == Emit(old(State()), id, aggregate, eventType, transfer, now)
      ensures err.Some? ==> MayFail(err.value) && State() == old(State())
    {
      err := Fault();
      if err.None? {
        var sequence := MaxSequence(outbox, aggregate) + 1;
        outbox := outbox + [OutboxEvent(id, aggregate, eventType, transfer, sequence, now, false, 0, false)];
      }
    }

    // --------------------------------------------------------------- holds

    method GetHoldForUpdate(id: Id) returns (r: Result<Hold, Error>)
      ensures r.Success? ==> id in holds && r.value == holds[id]
      ensures r.Failure? ==> MayFail(r.error) || (id !in holds && r.error == HoldNotFound)
    {
      var err := Fault();
      if err.Some? {
        return Failure(err.value);
      }
      if id !in holds {
        return Failure(HoldNotFound);
      }
      return Success(holds[id]);
    }

    method CreateHold(h: Hold) returns (err: Option<Error>)
      requires Keyed()
      modifies this`holdIds, this`holds
      ensures Keyed()
      ensures err.None? ==> State() == old(State()).(holdIds := old(holdIds) + [h.id], holds := old(holds)[h.id := h])
      ensures err.Some? ==> MayFail(err.value) && State() == old(State())
    {
      err := Fault();
      if err.None? {
        holdIds, holds := holdIds + [h.id], holds[h.id := h];
      }
    }

    method UpdateHoldStatus(id: Id, status: HoldStatus) returns (err: Option<Error>)
      requires Keyed() && id in holds
      modifies this`holds
      ensures Keyed()
      ensures err.None? ==> State() == old(State()).(holds := old(holds)[id := old(holds[id]).(status := status)])
      ensures err.Some? ==> MayFail(err.value) && State() == old(State())
    {
      err := Fault();
      if err.None? {
        holds := holds[id := holds[id].(status := status)];
      }
    }
  }
}
