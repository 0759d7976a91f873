/**
 The reconciliation readers: what each reports on any tables, possibly corrupt
 ones, and what all of them report on every reachable ledger.
*/
module Reconciliation {
  import opened Wrappers
  import opened Domain
  import opened Ledger
  import opened Projections
  import opened Invariants
  import opened EntryChain
  import opened HistoricalBalance
  import opened Guarantees
  import opened Locality

  datatype AccountResult = AccountResult(account: Id, recorded: int, calculated: int, difference: int, reconciled: bool)

  /** The balance read from l is the sum of the account's entries read from m. */
  ghost predicate Agrees(l: Tables, m: Tables, id: Id) {
    id in l.accounts && l.accounts[id].balance == SumAmounts(EntriesOf(m.entries, id))
  }

  ghost predicate Reconciles(l: Tables, id: Id) {
    Agrees(l, l, id)
  }

  /** The result describes the account: the balance from l, the sum from m, their difference, and whether they agree. */
  ghost predicate Describes(l: Tables, m: Tables, r: AccountResult) {
    && r.account in l.accounts
    && r.recorded == l.accounts[r.account].balance
    && r.recorded == r.calculated + r.difference
    && r.calculated == SumAmounts(EntriesOf(m.entries, r.account))
    && (r.reconciled <==> Agrees(l, m, r.account))
  }

  /** Two statements, each of which sees the tables of its own moment. */
  method ReconcileAccount(first: Tables, second: Tables, id: Id) returns (r: Result<AccountResult, Error>)
    ensures id !in first.accounts ==> r == Failure(AccountNotFound)
    ensures id in first.accounts ==> r.Success? && r.value.account == id && Describes(first, second, r.value)
  {
    if id !in first.accounts {
      return Failure(AccountNotFound);
    }
    var recorded := first.accounts[id].balance;
    var calculated := SumAmounts(EntriesOf(second.entries, id));
    var difference := recorded - calculated;
    return Success(AccountResult(id, recorded, calculated, difference, difference == 0));
  }

  const MAX_PAGE_SIZE := 1000
  const DEFAULT_PAGE_SIZE := 50
  const RECONCILIATION_LIMIT := 10000

  /** The page size and offset actually used: never above the maximum, never negative. */
  function ValidatePagination(limit: int, offset: int): (r: (int, int))
    ensures 0 < r.0 <= 1000 && 0 <= r.1
    ensures 0 < limit <= 1000 ==> r.0 == limit
    ensures limit > 1000 ==> r.0 == 1000
    ensures limit <= 0 ==> r.0 == 50
    ensures r.1 == (if offset < 0 then 0 else offset)
  {
    var size := if limit <= 0 then DEFAULT_PAGE_SIZE else limit;
    (if size > MAX_PAGE_SIZE then MAX_PAGE_SIZE else size, if offset < 0 then 0 else offset)
  }

  /** A page of accounts in any order: distinct, and as many as the limit allows. */
  ghost predicate ListsAccounts(l: Tables, listed: seq<Id>, limit: int) {
    && NoDuplicates(listed)
    && (forall i :: 0 <= i < |listed| ==> listed[i] in l.accounts)
    && |listed| == (if |l.accountIds| < limit then |l.accountIds| else limit)
  }

  /** Each listed account is there when its turn comes; seen(k) is what statement k sees, 0 being the listing. */
  predicate AllOpen(seen: nat -> Tables, listed: seq<Id>) {
    forall i :: 0 <= i < |listed| ==> listed[i] in seen(2 * i + 1).accounts
  }

  /** The result for the account at one position of the listing. */
  ghost predicate DescribesAt(seen: nat -> Tables, listed: seq<Id>, i: nat, r: AccountResult)
    requires i < |listed|
  {
    r.account == listed[i] && Describes(seen(2 * i + 1), seen(2 * i + 2), r)
  }

  method ReconcileAllAccounts(seen: nat -> Tables, listed: seq<Id>) returns (r: Result<seq<AccountResult>, Error>)
    ensures r.Success? <==> AllOpen(seen, listed)
    ensures r.Failure? ==> r.error == AccountNotFound
    ensures r.Success? ==> |r.value| == |listed|
    ensures r.Success? ==> forall i :: 0 <= i < |listed| ==> DescribesAt(seen, listed, i, r.value[i])
  {
    hide Describes;
    var results: seq<AccountResult> := [];
    for i := 0 to |listed|
      invariant |results| == i
      invariant forall j :: 0 <= j < i ==>
        listed[j] in seen(2 * j + 1).accounts && DescribesAt(seen, listed, j, results[j])
    {
      var one := ReconcileAccount(seen(2 * i + 1), seen(2 * i + 2), listed[i]);
      if one.Failure? {
        return Failure(one.error);
      }
      results := results + [one.value];
    }
    return Success(results);
  }

  // ---------------------------------------------------------- by currency

  datatype CurrencyRow = CurrencyRow(currency: Currency, balance: int, entries: int)

  /** SUM(amount) over the entries joined with their accounts, for one currency. */
  function EntriesTotal(entries: seq<Entry>, accounts: map<Id, Account>, currency: Currency): int {
    if entries == [] then 0
    else
      var e := entries[|entries| - 1];
      EntriesTotal(entries[..|entries| - 1], accounts, currency)
      + (if e.account in accounts && accounts[e.account].currency == currency then e.amount else 0)
  }

  function TotalBalance(ids: seq<Id>, accounts: map<Id, Account>): int
    requires forall i :: 0 <= i < |ids| ==> ids[i] in accounts
  {
    if ids == [] then 0
    else TotalBalance(ids[..|ids| - 1], accounts) + accounts[ids[|ids| - 1]].balance
  }

  ghost predicate DistinctCurrencies(rows: seq<CurrencyRow>) {
    forall i, j :: 0 <= i < j < |rows| ==> rows[i].currency != rows[j].currency
  }

  predicate HasCurrency(rows: seq<CurrencyRow>, currency: Currency) {
    exists i :: 0 <= i < |rows| && rows[i].currency == currency
  }

  /** The grouped query: one row for each currency that some account has. */
  ghost predicate GroupsByCurrency(l: Tables, rows: seq<CurrencyRow>)
    requires Lists(l.accountIds, l.accounts)
  {
    && DistinctCurrencies(rows)
    && (forall id :: id in l.accounts ==> HasCurrency(rows, l.accounts[id].currency))
    && (forall i :: 0 <= i < |rows| ==>
          && rows[i].balance == CurrencyTotal(l.accountIds, l.accounts, rows[i].currency)
          && rows[i].entries == EntriesTotal(l.entries, l.accounts, rows[i].currency))
  }

  method CheckLedgerConsistency(rows: seq<CurrencyRow>) returns (mismatches: seq<CurrencyRow>)
    ensures forall r :: r in mismatches <==> r in rows && r.balance != r.entries
    ensures mismatches == [] <==> forall i :: 0 <= i < |rows| ==> rows[i].balance == rows[i].entries
  {
    mismatches := [];
    for i := 0 to |rows|
      invariant forall r :: r in mismatches <==> r in rows[..i] && r.balance != r.entries
      invariant mismatches == [] <==> forall j :: 0 <= j < i ==> rows[j].balance == rows[j].entries
    {
      if rows[i].balance != rows[i].entries {
        mismatches := mismatches + [rows[i]];
      }
      assert rows[..i + 1] == rows[..i] + [rows[i]];
    }
    assert rows[..|rows|] == rows;
  }

  /** Both grand totals zero. */
  predicate CheckConsistency(l: Tables)
    requires Lists(l.accountIds, l.accounts)
  {
    TotalBalance(l.accountIds, l.accounts) == 0 && SumAmounts(l.entries) == 0
  }

  // ------------------------------------------- detector on any tables at all

  ghost predicate EntriesReferToAccounts(l: Tables) {
    forall i :: 0 <= i < |l.entries| ==> l.entries[i].account in l.accounts
  }

  /** Sum over the listed accounts of one currency of each account's own entries. */
  function PerAccountTotal(ids: seq<Id>, accounts: map<Id, Account>, entries: seq<Entry>, currency: Currency): int
    requires forall i :: 0 <= i < |ids| ==> ids[i] in accounts
  {
    if ids == [] then 0
    else
      var id := ids[|ids| - 1];
      PerAccountTotal(ids[..|ids| - 1], accounts, entries, currency)
      + (if accounts[id].currency == currency then SumAmounts(EntriesOf(entries, id)) else 0)
  }

  lemma OwnSumAppend(entries: seq<Entry>, e: Entry, account: Id)
    ensures SumAmounts(EntriesOf(entries + [e], account)) ==
      SumAmounts(EntriesOf(entries, account)) + (if e.account == account then e.amount else 0)
  {
    EntriesOfAppend(entries, e, account);
    var es := EntriesOf(entries, account);
    assert (es + [e])[..|es|] == es && es + [] == es;
  }

  lemma {:induction false} PerAccountAppend(ids: seq<Id>, accounts: map<Id, Account>, entries: seq<Entry>, e: Entry,
      currency: Currency)
    requires NoDuplicates(ids) && forall i :: 0 <= i < |ids| ==> ids[i] in accounts
    requires e.account in accounts
    ensures PerAccountTotal(ids, accounts, entries + [e], currency) == PerAccountTotal(ids, accounts, entries,
      currency) +
      if e.account in ids && accounts[e.account].currency == currency then e.amount else 0
  {
    hide EntriesOf, SumAmounts;
    if ids != [] {
      var n := |ids| - 1;
      PerAccountAppend(ids[..n], accounts, entries, e, currency);
      assert e.account in ids <==> e.account in ids[..n] || e.account == ids[n];
      OwnSumAppend(entries, e, ids[n]);
    }
  }

  lemma {:induction false} PerAccountEmpty(ids: seq<Id>, accounts: map<Id, Account>, currency: Currency)
    requires forall i :: 0 <= i < |ids| ==> ids[i] in accounts
    ensures PerAccountTotal(ids, accounts, [], currency) == 0
  {
    if ids != [] {
      PerAccountEmpty(ids[..|ids| - 1], accounts, currency);
    }
  }

  /** Counting entries account by account, or all at once by the join, gives the same currency total. */
  lemma {:induction false} CountedTwice(ids: seq<Id>, accounts: map<Id, Account>, entries: seq<Entry>,
      currency: Currency)
    requires Lists(ids, accounts)
    requires forall i :: 0 <= i < |entries| ==> entries[i].account in accounts
    ensures PerAccountTotal(ids, accounts, entries, currency) == EntriesTotal(entries, accounts, currency)
  {
    if entries == [] {
      PerAccountEmpty(ids, accounts, currency);
    } else {
      var n := |entries| - 1;
      CountedTwice(ids, accounts, entries[..n], currency);
      assert entries == entries[..n] + [entries[n]];
      PerAccountAppend(ids, accounts, entries[..n], entries[n], currency);
    }
  }

  lemma {:induction false} ReconciledTotals(ids: seq<Id>, l: Tables, currency: Currency)
    requires forall i :: 0 <= i < |ids| ==> ids[i] in l.accounts && Reconciles(l, ids[i])
    ensures CurrencyTotal(ids, l.accounts, currency) == PerAccountTotal(ids, l.accounts, l.entries, currency)
  {
    if ids != [] {
      ReconciledTotals(ids[..|ids| - 1], l, currency);
    }
  }

  /** If every account reconciles, every currency's totals match. Holds of any tables, however they came about. */
  lemma ReconciledMeansCurrenciesMatch(l: Tables, currency: Currency)
    requires Lists(l.accountIds, l.accounts) && EntriesReferToAccounts(l)
    requires forall id :: id in l.accounts ==> Reconciles(l, id)
    ensures CurrencyTotal(l.accountIds, l.accounts, currency) == EntriesTotal(l.entries, l.accounts, currency)
  {
    ReconciledTotals(l.accountIds, l, currency);
    CountedTwice(l.accountIds, l.accounts, l.entries, currency);
  }

  function RowBalances(rows: seq<CurrencyRow>): int {
    if rows == [] then 0 else RowBalances(rows[..|rows| - 1]) + rows[|rows| - 1].balance
  }

  function RowEntries(rows: seq<CurrencyRow>): int {
    if rows == [] then 0 else RowEntries(rows[..|rows| - 1]) + rows[|rows| - 1].entries
  }

  predicate Shifted(row: CurrencyRow, row': CurrencyRow, currency: Currency, balance: int, entries: int) {
    row' == if row.currency == currency then row.(balance := row.balance + balance,
      entries := row.entries + entries) else row
  }

  /** Adding one amount to the row of its currency, and to no other. */
  lemma {:induction false} RowsShift(rows: seq<CurrencyRow>, rows': seq<CurrencyRow>, currency: Currency,
      balance: int, entries: int)
    requires |rows| == |rows'| && DistinctCurrencies(rows)
    requires forall i :: 0 <= i < |rows| ==> Shifted(rows[i], rows'[i], currency, balance, entries)
    ensures RowBalances(rows') == RowBalances(rows) + (if HasCurrency(rows, currency) then balance else 0)
    ensures RowEntries(rows') == RowEntries(rows) + (if HasCurrency(rows, currency) then entries else 0)
  {
    if rows != [] {
      var n := |rows| - 1;
      RowsShift(rows[..n], rows'[..n], currency, balance, entries);
      assert HasCurrency(rows, currency) <==> HasCurrency(rows[..n], currency) || rows[n].currency == currency;
      assert rows[n].currency == currency ==> !HasCurrency(rows[..n], currency);
    }
  }

  /** The rows for the given tables' figures, one per given currency. */
  function RowsFor(currencies: seq<CurrencyRow>, ids: seq<Id>, accounts: map<Id, Account>,
      entries: seq<Entry>): (r: seq<CurrencyRow>)
    requires forall i :: 0 <= i < |ids| ==> ids[i] in accounts
    ensures |r| == |currencies|
    ensures forall i :: 0 <= i < |r| ==> r[i] == CurrencyRow(currencies[i].currency,
      CurrencyTotal(ids, accounts, currencies[i].currency), EntriesTotal(entries, accounts, currencies[i].currency))
  {
    seq(|currencies|, i requires 0 <= i < |currencies| => CurrencyRow(currencies[i].currency,
      CurrencyTotal(ids, accounts, currencies[i].currency), EntriesTotal(entries, accounts, currencies[i].currency)))
  }

  lemma {:induction false} ZeroRows(rows: seq<CurrencyRow>)
    requires forall i :: 0 <= i < |rows| ==> rows[i].balance == 0 == rows[i].entries
    ensures RowBalances(rows) == 0 == RowEntries(rows)
  {
    if rows != [] {
      ZeroRows(rows[..|rows| - 1]);
    }
  }

  lemma {:induction false} RowsCoverBalances(rows: seq<CurrencyRow>, ids: seq<Id>, accounts: map<Id, Account>)
    requires DistinctCurrencies(rows)
    requires forall i :: 0 <= i < |ids| ==> ids[i] in accounts && HasCurrency(rows, accounts[ids[i]].currency)
    ensures RowBalances(RowsFor(rows, ids, accounts, [])) == TotalBalance(ids, accounts)
  {
    if ids == [] {
      ZeroRows(RowsFor(rows, ids, accounts, []));
    } else {
      var n := |ids| - 1;
      RowsCoverBalances(rows, ids[..n], accounts);
      var a := accounts[ids[n]];
      var before := RowsFor(rows, ids[..n], accounts, []);
      assert DistinctCurrencies(before);
      assert HasCurrency(before, a.currency) by {
        var i :| 0 <= i < |rows| && rows[i].currency == a.currency;
        assert before[i].currency == a.currency;
      }
      RowsShift(before, RowsFor(rows, ids, accounts, []), a.currency, a.balance, 0);
    }
  }

  lemma {:induction false} RowsCoverEntries(rows: seq<CurrencyRow>, accounts: map<Id, Account>, entries: seq<Entry>)
    requires DistinctCurrencies(rows)
    requires forall i :: 0 <= i < |entries| ==> entries[i].account in accounts && HasCurrency(rows,
      accounts[entries[i].account].currency)
    ensures RowEntries(RowsFor(rows, [], accounts, entries)) == SumAmounts(entries)
  {
    if entries == [] {
      ZeroRows(RowsFor(rows, [], accounts, entries));
    } else {
      var n := |entries| - 1;
      RowsCoverEntries(rows, accounts, entries[..n]);
      var currency := accounts[entries[n].account].currency;
      var before := RowsFor(rows, [], accounts, entries[..n]);
      assert DistinctCurrencies(before);
      assert HasCurrency(before, currency) by {
        var i :| 0 <= i < |rows| && rows[i].currency == currency;
        assert before[i].currency == currency;
      }
      RowsShift(before, RowsFor(rows, [], accounts, entries), currency, 0, entries[n].amount);
    }
  }

  lemma {:induction false} SameRowSums(r: seq<CurrencyRow>, s: seq<CurrencyRow>)
    requires |r| == |s|
    ensures (forall i :: 0 <= i < |r| ==> r[i].balance == s[i].balance) ==> RowBalances(r) == RowBalances(s)
    ensures (forall i :: 0 <= i < |r| ==> r[i].entries == s[i].entries) ==> RowEntries(r) == RowEntries(s)
    ensures (forall i :: 0 <= i < |r| ==> r[i].balance == r[i].entries) ==> RowBalances(r) == RowEntries(r)
  {
    if r != [] {
      SameRowSums(r[..|r| - 1], s[..|r| - 1]);
    }
  }

  /** The currency rows split the grand totals, so if every row matches the grand totals match. Any tables. */
  lemma CurrenciesMatchMeansTotalsMatch(l: Tables, rows: seq<CurrencyRow>)
    requires Lists(l.accountIds, l.accounts) && EntriesReferToAccounts(l)
    requires GroupsByCurrency(l, rows)
    ensures RowBalances(rows) == TotalBalance(l.accountIds, l.accounts)
    ensures RowEntries(rows) == SumAmounts(l.entries)
    ensures (forall i :: 0 <= i < |rows| ==> rows[i].balance == rows[i].entries) ==>
      TotalBalance(l.accountIds, l.accounts) == SumAmounts(l.entries)
  {
    hide CurrencyTotal, EntriesTotal, RowBalances, RowEntries, TotalBalance, SumAmounts, DistinctCurrencies;
    hide NoDuplicates;
    RowsCoverBalances(rows, l.accountIds, l.accounts);
    RowsCoverEntries(rows, l.accounts, l.entries);
    SameRowSums(rows, RowsFor(rows, l.accountIds, l.accounts, []));
    SameRowSums(rows, RowsFor(rows, [], l.accounts, l.entries));
    SameRowSums(rows, rows);
  }

  /** What the coarse check accepts, told from the currency rows: balances that sum to zero, and so the entries. */
  lemma ConsistencyByRows(l: Tables, rows: seq<CurrencyRow>)
    requires Lists(l.accountIds, l.accounts) && EntriesReferToAccounts(l) && GroupsByCurrency(l, rows)
    ensures CheckConsistency(l) <==> RowBalances(rows) == 0 && RowEntries(rows) == 0
  {
    CurrenciesMatchMeansTotalsMatch(l, rows);
  }

  lemma {:induction false} TotalBalanceUpdate(ids: seq<Id>, accounts: map<Id, Account>, id: Id, a: Account)
    requires NoDuplicates(ids) && (forall i :: 0 <= i < |ids| ==> ids[i] in accounts) && id in accounts
    ensures TotalBalance(ids, accounts[id := a]) ==
      TotalBalance(ids, accounts) + if id in ids then a.balance - accounts[id].balance else 0
  {
    if ids != [] {
      TotalBalanceUpdate(ids[..|ids| - 1], accounts, id, a);
      assert id in ids <==> id in ids[..|ids| - 1] || id == ids[|ids| - 1];
    }
  }

  lemma {:induction false} SumAmountsUpdate(entries: seq<Entry>, i: nat, e: Entry)
    requires i < |entries|
    ensures SumAmounts(entries[i := e]) == SumAmounts(entries) + e.amount - entries[i].amount
  {
    var n := |entries| - 1;
    if i < n {
      SumAmountsUpdate(entries[..n], i, e);
      assert entries[i := e][..n] == entries[..n][i := e];
    } else {
      assert entries[i := e][..n] == entries[..n];
    }
  }

  /** One tampered balance is always noticed; two that offset each other never are. */
  lemma TamperedBalances(l: Tables, id: Id, other: Id, d: int, d': int)
    requires Lists(l.accountIds, l.accounts) && CheckConsistency(l)
    requires id in l.accounts && other in l.accounts && id != other
    ensures var a, b := l.accounts[id], l.accounts[other];
      var l' := l.(accounts := l.accounts[id := a.(balance := a.balance + d)][other := b.(balance := b.balance + d')]);
      Lists(l'.accountIds, l'.accounts) && (CheckConsistency(l') <==> d + d' == 0)
  {
    var a, b := l.accounts[id], l.accounts[other];
    TotalBalanceUpdate(l.accountIds, l.accounts, id, a.(balance := a.balance + d));
    TotalBalanceUpdate(l.accountIds, l.accounts[id := a.(balance := a.balance + d)], other,
      b.(balance := b.balance + d'));
  }

  /** One tampered entry is always noticed. */
  lemma TamperedEntry(l: Tables, i: nat, amount: int)
    requires Lists(l.accountIds, l.accounts) && CheckConsistency(l) && i < |l.entries|
    ensures CheckConsistency(l.(entries := l.entries[i := l.entries[i].(amount := amount)])) <==>
      amount == l.entries[i].amount
  {
    SumAmountsUpdate(l.entries, i, l.entries[i].(amount := amount));
  }

  // ---------------------------------------------------------------- report

  datatype Report = Report(
    totalAccounts: nat, reconciledAccounts: nat,
    discrepancies: seq<AccountResult>, chainBreaks: seq<Id>, ledgerConsistent: bool)

  /** The listed accounts whose two readings disagree, in listing order. */
  ghost function Unreconciled(seen: nat -> Tables, listed: seq<Id>): seq<Id> {
    if listed == [] then []
    else
      var n := |listed| - 1;
      Unreconciled(seen, listed[..n])
      + (if Agrees(seen(2 * n + 1), seen(2 * n + 2), listed[n]) then [] else [listed[n]])
  }

  /** The listed accounts whose chain, as read for them, has breaks, in listing order. */
  function Broken(listed: seq<Id>, chains: nat -> seq<Entry>): seq<Id> {
    if listed == [] then []
    else
      var n := |listed| - 1;
      Broken(listed[..n], chains) + (if BreaksOf(chains(n)) == [] then [] else [listed[n]])
  }

  /** What a report on the listed accounts says, given the currency rows and each account's ordered entries. */
  ghost predicate Reports(seen: nat -> Tables, listed: seq<Id>, rows: seq<CurrencyRow>, chains: nat -> seq<Entry>,
      report: Report) {
    && report.totalAccounts == |listed|
    && report.reconciledAccounts + |report.discrepancies| == report.totalAccounts
    && AreResultsFor(seen, listed, report.discrepancies, Unreconciled(seen, listed))
    && report.chainBreaks == Broken(listed, chains)
    && (report.ledgerConsistent <==> forall i :: 0 <= i < |rows| ==> rows[i].balance == rows[i].entries)
  }

  /** One result for each of the accounts, in their order, each describing its account's readings. */
  ghost predicate AreResultsFor(seen: nat -> Tables, listed: seq<Id>, results: seq<AccountResult>, ids: seq<Id>) {
    && |results| == |ids|
    && forall k :: 0 <= k < |results| ==> results[k].account == ids[k] && DescribesSome(seen, listed, results[k])
  }

  ghost predicate DescribesSome(seen: nat -> Tables, listed: seq<Id>, r: AccountResult) {
    exists i :: 0 <= i < |listed| && DescribesAt(seen, listed, i, r)
  }

  method GenerateReconciliationReport(seen: nat -> Tables, listed: seq<Id>, rows: seq<CurrencyRow>,
      chains: nat -> seq<Entry>)
    returns (r: Result<Report, Error>)
    ensures r.Success? <==> AllOpen(seen, listed)
    ensures r.Success? ==> Reports(seen, listed, rows, chains, r.value)
  {
    hide BreaksOf, Linked, Unreconciled, Broken, AreResultsFor, DescribesAt;
    var all := ReconcileAllAccounts(seen, listed);
    if all.Failure? {
      return Failure(all.error);
    }
    var results := all.value;
    var mismatches := CheckLedgerConsistency(rows);
    var reconciled, discrepancies, broken := 0, [], [];
    NothingReported(seen, listed, chains);
    for i := 0 to |results|
      invariant reconciled + |discrepancies| == i
      invariant AreResultsFor(seen, listed, discrepancies, Unreconciled(seen, listed[..i]))
      invariant broken == Broken(listed[..i], chains)
    {
      var result := results[i];
      OneMoreReported(seen, listed, i, discrepancies, result, chains);
      assert discrepancies + [] == discrepancies;
      if result.reconciled {
        reconciled := reconciled + 1;
      } else {
        discrepancies := discrepancies + [result];
      }
      var _, valid := VerifyEntryChain(chains(i));
      if !valid {
        broken := broken + [result.account];
      }
    }
    assert listed[..|listed|] == listed;
    return Success(Report(|results|, reconciled, discrepancies, broken, mismatches == []));
  }

  lemma NothingReported(seen: nat -> Tables, listed: seq<Id>, chains: nat -> seq<Entry>)
    ensures AreResultsFor(seen, listed, [], Unreconciled(seen, listed[..0]))
    ensures Broken(listed[..0], chains) == []
  {
  }

  /** How the next listed account adds to what is reported. */
  lemma OneMoreReported(seen: nat -> Tables, listed: seq<Id>, i: nat, found: seq<AccountResult>, r: AccountResult,
      chains: nat -> seq<Entry>)
    requires i < |listed| && DescribesAt(seen, listed, i, r)
    requires AreResultsFor(seen, listed, found, Unreconciled(seen, listed[..i]))
    ensures r.account == listed[i]
    ensures AreResultsFor(seen, listed, found + (if r.reconciled then [] else [r]),
      Unreconciled(seen, listed[..i + 1]))
    ensures Broken(listed[..i + 1], chains) ==
      Broken(listed[..i], chains) + (if BreaksOf(chains(i)) == [] then [] else [listed[i]])
  {
    hide BreaksOf, Agrees, Unreconciled, Broken, DescribesSome, DescribesAt, AreResultsFor;
    FiltersGrow(seen, listed, i, chains);
    DescribedThere(seen, listed, i, r);
    if r.reconciled {
      assert Unreconciled(seen, listed[..i]) + [] == Unreconciled(seen, listed[..i]) && found + [] == found;
    } else {
      ResultsAppend(seen, listed, found, Unreconciled(seen, listed[..i]), r);
    }
  }

  lemma ResultsAppend(seen: nat -> Tables, listed: seq<Id>, results: seq<AccountResult>, ids: seq<Id>, r: AccountResult)
    requires AreResultsFor(seen, listed, results, ids) && DescribesSome(seen, listed, r)
    ensures AreResultsFor(seen, listed, results + [r], ids + [r.account])
  {
    hide DescribesSome;
  }

  lemma DescribedThere(seen: nat -> Tables, listed: seq<Id>, i: nat, r: AccountResult)
    requires i < |listed| && DescribesAt(seen, listed, i, r)
    ensures r.account == listed[i] && DescribesSome(seen, listed, r)
    ensures r.reconciled <==> Agrees(seen(2 * i + 1), seen(2 * i + 2), listed[i])
  {
  }

  lemma FiltersGrow(seen: nat -> Tables, listed: seq<Id>, i: nat, chains: nat -> seq<Entry>)
    requires i < |listed|
    ensures Unreconciled(seen, listed[..i + 1]) == Unreconciled(seen, listed[..i]) +
      if Agrees(seen(2 * i + 1), seen(2 * i + 2), listed[i]) then [] else [listed[i]]
    ensures Broken(listed[..i + 1], chains) ==
      Broken(listed[..i], chains) + (if BreaksOf(chains(i)) == [] then [] else [listed[i]])
  {
    hide BreaksOf, Agrees;
    assert listed[..i + 1][..i] == listed[..i];
  }

  // ------------------------------------------------- reachable ledgers

  lemma {:induction false} PairsCancel(entries: seq<Entry>, transfers: seq<Transfer>)
    requires |entries| == 2 * |transfers|
    requires forall k :: 0 <= k < |transfers| ==> Opposite(transfers[k], entries[2 * k], entries[2 * k + 1])
    ensures SumAmounts(entries) == 0
  {
    if transfers != [] {
      var n := |transfers| - 1;
      forall k | 0 <= k < n
        ensures Opposite(transfers[..n][k], entries[..2 * n][2 * k], entries[..2 * n][2 * k + 1])
      {
        assert Opposite(transfers[k], entries[2 * k], entries[2 * k + 1]);
      }
      PairsCancel(entries[..2 * n], transfers[..n]);
      assert Opposite(transfers[n], entries[2 * n], entries[2 * n + 1]);
      assert entries[..2 * n + 1][..2 * n] == entries[..2 * n];
      assert entries[..|entries| - 1] == entries[..2 * n + 1];
    }
  }

  /** On a reachable ledger every check of every reader passes. */
  lemma ReachableLedgerReconciles(steps: seq<Step>, rows: seq<CurrencyRow>)
    requires FreshRun(steps)
    ensures var l := Run(steps);
      && Lists(l.accountIds, l.accounts) && EntriesReferToAccounts(l)
      && (forall id :: id in l.accounts ==> Reconciles(l, id))
      && (GroupsByCurrency(l, rows) ==> forall i :: 0 <= i < |rows| ==> rows[i].balance == 0 == rows[i].entries)
      && CheckConsistency(l)
  {
    Conservation(steps);
    DoubleEntry(steps);
    var l := Run(steps);
    ReachableEntriesRefer(steps);
    forall k | 0 <= k < |l.transfers|
      ensures Opposite(l.transfers[k], l.entries[2 * k], l.entries[2 * k + 1])
    {
      assert OwnEntries(l.entries, l.transfers[k], 2 * k, 2 * k + 1);
    }
    PairsCancel(l.entries, l.transfers);
    forall currency
      ensures EntriesTotal(l.entries, l.accounts, currency) == 0
    {
      ReconciledMeansCurrenciesMatch(l, currency);
    }
    var all := AllRows(l, l.accountIds);
    CurrenciesMatchMeansTotalsMatch(l, all);
  }

  lemma {:induction false} EntriesGrow(steps: seq<Step>, p: nat)
    requires FreshRun(steps) && p <= |steps|
    ensures Run(steps[..p]).entries <= Run(steps).entries
  {
    if p == |steps| {
      assert steps[..p] == steps;
    } else {
      var n := |steps| - 1;
      EntriesGrow(steps[..n], p);
      assert steps[..n][..p] == steps[..p];
      ReachableRowsKeyed(steps[..n]);
      if Apply(Run(steps[..n]), steps[n].command, steps[n].base, steps[n].at).Success? {
        ApplyNewEntries(Run(steps[..n]), steps[n]);
      }
    }
  }

  lemma {:induction false} FreshPrefixRun(steps: seq<Step>, p: nat)
    requires FreshRun(steps) && p <= |steps|
    ensures FreshRun(steps[..p])
  {
    if p == |steps| {
      assert steps[..p] == steps;
    } else {
      FreshPrefixRun(steps[..|steps| - 1], p);
      assert steps[..|steps| - 1][..p] == steps[..p];
    }
  }

  lemma {:induction false} OwnSumConcat(entries: seq<Entry>, more: seq<Entry>, account: Id)
    ensures SumAmounts(EntriesOf(entries + more, account)) ==
      SumAmounts(EntriesOf(entries, account)) + SumAmounts(EntriesOf(more, account))
  {
    if more == [] {
      assert entries + more == entries;
    } else {
      var n := |more| - 1;
      OwnSumConcat(entries, more[..n], account);
      assert entries + more == (entries + more[..n]) + [more[n]] && more == more[..n] + [more[n]];
      OwnSumAppend(entries + more[..n], more[n], account);
      OwnSumAppend(more[..n], more[n], account);
    }
  }

  /** The sum of the account's entries committed between two moments. */
  function PostedBetween(l: Tables, m: Tables, account: Id): int {
    SumAmounts(EntriesOf(Appended(l.entries, m.entries), account))
  }

  /**
   Reconciling one account while others commit: with the balance read at one moment
   and the sum at a later one, the difference is minus what was posted in between,
   so an honest account is reconciled exactly when that nets to zero.
  */
  lemma ReconciledWhileCommitting(steps: seq<Step>, p: nat, q: nat, r: AccountResult)
    requires FreshRun(steps) && p <= q <= |steps|
    requires Describes(Run(steps[..p]), Run(steps[..q]), r)
    ensures r.difference == -PostedBetween(Run(steps[..p]), Run(steps[..q]), r.account)
    ensures r.reconciled <==> PostedBetween(Run(steps[..p]), Run(steps[..q]), r.account) == 0
  {
    hide Run, FreshRun;
    FreshPrefixRun(steps, q);
    FreshPrefixRun(steps, p);
    assert steps[..q][..p] == steps[..p];
    EntriesGrow(steps[..q], p);
    Conservation(steps[..p]);
    PostedSince(Run(steps[..p]), Run(steps[..q]), r);
  }

  lemma PostedSince(l: Tables, m: Tables, r: AccountResult)
    requires l.entries <= m.entries && Describes(l, m, r) && Reconciles(l, r.account)
    ensures r.difference == -PostedBetween(l, m, r.account)
    ensures r.reconciled <==> PostedBetween(l, m, r.account) == 0
  {
    hide EntriesOf, SumAmounts;
    assert m.entries == l.entries + Appended(l.entries, m.entries);
    OwnSumConcat(l.entries, Appended(l.entries, m.entries), r.account);
  }

  /** Statement k of the report sees the tables after the first at(k) commits; commits go on between statements. */
  ghost predicate ReadsWhileCommitting(seen: nat -> Tables, steps: seq<Step>, at: nat -> nat) {
    && (forall k: nat :: at(k) <= at(k + 1))
    && (forall k: nat :: at(k) <= |steps| && seen(k) == Run(steps[..at(k)]))
  }

  predicate HasGap(log: seq<Touch>, account: Id) {
    exists k :: 0 <= k < |Gaps(log, account)| && Gaps(log, account)[k] > 0
  }

  lemma {:induction false} NoneUnreconciled(seen: nat -> Tables, listed: seq<Id>)
    ensures Unreconciled(seen, listed) == [] <==>
      forall i :: 0 <= i < |listed| ==> Agrees(seen(2 * i + 1), seen(2 * i + 2), listed[i])
  {
    if listed != [] {
      NoneUnreconciled(seen, listed[..|listed| - 1]);
    }
  }

  lemma AgreesWhileCommitting(seen: nat -> Tables, steps: seq<Step>, at: nat -> nat, k: nat, id: Id)
    requires FreshRun(steps) && ReadsWhileCommitting(seen, steps, at)
    requires id in seen(k).accounts
    ensures Agrees(seen(k), seen(k + 1), id) <==> PostedBetween(seen(k), seen(k + 1), id) == 0
  {
    var one := ResultOf(seen(k), seen(k + 1), id);
    ReconciledWhileCommitting(steps, at(k), at(k + 1), one);
  }

  lemma ResultOf(l: Tables, m: Tables, id: Id) returns (r: AccountResult)
    requires id in l.accounts
    ensures r.account == id && Describes(l, m, r)
  {
    var sum := SumAmounts(EntriesOf(m.entries, id));
    r := AccountResult(id, l.accounts[id].balance, sum, l.accounts[id].balance - sum, l.accounts[id].balance == sum);
  }

  lemma SeenAt(seen: nat -> Tables, steps: seq<Step>, at: nat -> nat, k: nat)
    requires FreshRun(steps) && ReadsWhileCommitting(seen, steps, at)
    ensures at(k) <= |steps| && FreshRun(steps[..at(k)]) && seen(k) == Run(steps[..at(k)])
  {
    FreshPrefixRun(steps, at(k));
  }

  /** The rows are the grouped query's result on the tables the statement after the accounts' readings sees. */
  ghost predicate RowsSeen(seen: nat -> Tables, listed: seq<Id>, rows: seq<CurrencyRow>) {
    var l := seen(2 * |listed| + 1);
    Lists(l.accountIds, l.accounts) && GroupsByCurrency(l, rows)
  }

  lemma RowsConsistent(seen: nat -> Tables, steps: seq<Step>, at: nat -> nat, listed: seq<Id>, rows: seq<CurrencyRow>)
    requires FreshRun(steps) && ReadsWhileCommitting(seen, steps, at) && RowsSeen(seen, listed, rows)
    ensures forall i :: 0 <= i < |rows| ==> rows[i].balance == rows[i].entries
  {
    var k := 2 * |listed| + 1;
    SeenAt(seen, steps, at, k);
    hide ReadsWhileCommitting, Run, FreshRun;
    ReachableLedgerReconciles(steps[..at(k)], rows);
  }

  /** Chain i is the ordered query's result on the tables its own statement sees. */
  ghost predicate ChainSeen(seen: nat -> Tables, listed: seq<Id>, chains: nat -> seq<Entry>, i: nat)
    requires i < |listed|
  {
    var l := seen(2 * |listed| + 2 + i);
    listed[i] in l.accounts && ListsByVersion(chains(i), l.entries, listed[i])
  }

  /** Chain i has breaks exactly when the history its statement sees has an entry after encumbrance-only updates. */
  ghost predicate BrokenIfGap(steps: seq<Step>, at: nat -> nat, listed: seq<Id>, chains: nat -> seq<Entry>, i: nat)
    requires i < |listed|
  {
    var k := at(2 * |listed| + 2 + i);
    k <= |steps| && (BreaksOf(chains(i)) != [] <==> HasGap(History(steps[..k]), listed[i]))
  }

  lemma VerdictAsGap(steps: seq<Step>, account: Id, rows: seq<Entry>)
    requires FreshRun(steps) && account in Run(steps).accounts && ListsByVersion(rows, Run(steps).entries, account)
    ensures BreaksOf(rows) != [] <==> HasGap(History(steps), account)
  {
    hide BreaksOf, History, Run, FreshRun, ListsByVersion;
    ChainVerdict(steps, account, rows);
  }

  lemma ChainWhileCommitting(seen: nat -> Tables, steps: seq<Step>, at: nat -> nat, listed: seq<Id>,
      chains: nat -> seq<Entry>, i: nat)
    requires FreshRun(steps) && ReadsWhileCommitting(seen, steps, at)
    requires i < |listed| && ChainSeen(seen, listed, chains, i)
    ensures BrokenIfGap(steps, at, listed, chains, i)
  {
    hide ReadsWhileCommitting, Run, FreshRun, History, BreaksOf, ListsByVersion, HasGap;
    var k := 2 * |listed| + 2 + i;
    SeenAt(seen, steps, at, k);
    VerdictAsGap(steps[..at(k)], listed[i], chains(i));
  }

  /**
   A report over a ledger that goes on committing. It shows no discrepancy exactly when
   what was posted to each account between its two readings nets to zero, in particular
   when nothing commits meanwhile; it finds the ledger consistent, and a chain broken
   exactly when by then it has an entry that follows encumbrance-only updates.
  */
  lemma ReachableReport(steps: seq<Step>, at: nat -> nat, seen: nat -> Tables, listed: seq<Id>,
      rows: seq<CurrencyRow>, chains: nat -> seq<Entry>, report: Report)
    requires FreshRun(steps) && ReadsWhileCommitting(seen, steps, at)
    requires AllOpen(seen, listed) && Reports(seen, listed, rows, chains, report)
    requires RowsSeen(seen, listed, rows) && forall i :: 0 <= i < |listed| ==> ChainSeen(seen, listed, chains, i)
    ensures report.discrepancies == [] <==>
      forall i :: 0 <= i < |listed| ==> PostedBetween(seen(2 * i + 1), seen(2 * i + 2), listed[i]) == 0
    ensures (forall i :: 0 <= i < |listed| ==> at(2 * i + 1) == at(2 * i + 2)) ==> report.discrepancies == []
    ensures report.ledgerConsistent
    ensures report.chainBreaks == Broken(listed, chains)
    ensures forall i :: 0 <= i < |listed| ==> BrokenIfGap(steps, at, listed, chains, i)
  {
    hide *;
    ReportParts(seen, listed, rows, chains, report);
    forall i | 0 <= i < |listed|
      ensures Agrees(seen(2 * i + 1), seen(2 * i + 2), listed[i]) <==>
        PostedBetween(seen(2 * i + 1), seen(2 * i + 2), listed[i]) == 0
      ensures at(2 * i + 1) == at(2 * i + 2) ==> PostedBetween(seen(2 * i + 1), seen(2 * i + 2), listed[i]) == 0
    {
      OpenAt(seen, listed, i);
      NothingBetween(seen, steps, at, 2 * i + 1, listed[i]);
      AgreesWhileCommitting(seen, steps, at, 2 * i + 1, listed[i]);
    }
    NoneUnreconciled(seen, listed);
    RowsConsistent(seen, steps, at, listed, rows);
    forall i | 0 <= i < |listed|
      ensures BrokenIfGap(steps, at, listed, chains, i)
    {
      ChainWhileCommitting(seen, steps, at, listed, chains, i);
    }
  }

  lemma NothingBetween(seen: nat -> Tables, steps: seq<Step>, at: nat -> nat, k: nat, account: Id)
    requires ReadsWhileCommitting(seen, steps, at)
    ensures at(k) == at(k + 1) ==> PostedBetween(seen(k), seen(k + 1), account) == 0
  {
    if at(k) == at(k + 1) {
      assert seen(k) == seen(k + 1);
      assert Appended(seen(k).entries, seen(k).entries) == [];
    }
  }

  lemma OpenAt(seen: nat -> Tables, listed: seq<Id>, i: nat)
    requires AllOpen(seen, listed) && i < |listed|
    ensures listed[i] in seen(2 * i + 1).accounts
  {
  }

  lemma ReportParts(seen: nat -> Tables, listed: seq<Id>, rows: seq<CurrencyRow>, chains: nat -> seq<Entry>,
      report: Report)
    requires Reports(seen, listed, rows, chains, report)
    ensures report.discrepancies == [] <==> Unreconciled(seen, listed) == []
    ensures report.chainBreaks == Broken(listed, chains)
    ensures report.ledgerConsistent <==> forall i :: 0 <= i < |rows| ==> rows[i].balance == rows[i].entries
  {
    hide Unreconciled, Broken;
  }

  lemma ReachableEntriesRefer(steps: seq<Step>)
    requires FreshRun(steps)
    ensures EntriesReferToAccounts(Run(steps))
  {
    var l := Run(steps);
    forall i | 0 <= i < |l.entries|
      ensures l.entries[i].account in l.accounts
    {
      var e := l.entries[i];
      ReachableTracked(steps, e.account);
      EntriesOfMembers(l.entries, e.account);
    }
  }

  /** A grouped result exists for any tables. */
  lemma {:induction false} AllRows(l: Tables, ids: seq<Id>) returns (rows: seq<CurrencyRow>)
    requires Lists(l.accountIds, l.accounts)
    requires forall i :: 0 <= i < |ids| ==> ids[i] in l.accounts
    ensures DistinctCurrencies(rows)
    ensures forall i :: 0 <= i < |ids| ==> HasCurrency(rows, l.accounts[ids[i]].currency)
    ensures forall i :: 0 <= i < |rows| ==>
      && rows[i].balance == CurrencyTotal(l.accountIds, l.accounts, rows[i].currency)
      && rows[i].entries == EntriesTotal(l.entries, l.accounts, rows[i].currency)
  {
    if ids == [] {
      rows := [];
    } else {
      var n := |ids| - 1;
      rows := AllRows(l, ids[..n]);
      var c := l.accounts[ids[n]].currency;
      if !HasCurrency(rows, c) {
        var more := rows + [CurrencyRow(c, CurrencyTotal(l.accountIds, l.accounts, c), EntriesTotal(l.entries,
          l.accounts, c))];
        assert more[|rows|].currency == c;
        forall i | 0 <= i < n
          ensures HasCurrency(more, l.accounts[ids[i]].currency)
        {
          assert HasCurrency(rows, l.accounts[ids[..n][i]].currency);
          var j :| 0 <= j < |rows| && rows[j].currency == l.accounts[ids[i]].currency;
          assert more[j] == rows[j];
        }
        rows := more;
      }
    }
  }

  lemma {:induction false} DistinctFit(listed: seq<Id>, all: set<Id>)
    requires NoDuplicates(listed) && forall i :: 0 <= i < |listed| ==> listed[i] in all
    ensures |listed| <= |all|
    ensures |listed| == |all| <==> forall id :: id in all ==> id in listed
  {
    if listed == [] {
      if all != {} {
        var id :| id in all;
      }
    } else {
      var n := |listed| - 1;
      DistinctFit(listed[..n], all - {listed[n]});
      assert listed == listed[..n] + [listed[n]];
    }
  }

  /** The report looks at every account exactly when there are at most 1000 of them, though 10000 are asked for. */
  lemma ReportCoverage(l: Tables, listed: seq<Id>)
    requires Lists(l.accountIds, l.accounts)
    requires ListsAccounts(l, listed, ValidatePagination(RECONCILIATION_LIMIT, 0).0)
    ensures (forall id :: id in l.accounts ==> id in listed) <==> |l.accounts| <= 1000
  {
    DistinctFit(l.accountIds, l.accounts.Keys);
    DistinctFit(listed, l.accounts.Keys);
    assert |l.accounts| == |l.accounts.Keys|;
  }
}
