/**
 Independent readings of the tables: sums, per-account and per-aggregate
 filters, and the history of account updates a run has committed.
*/
module Projections {
  import opened Wrappers
  import opened Domain
  import opened Ledger

  // ------------------------------------------------------------ sequences

  predicate NoDuplicates(s: seq<Id>) {
    forall i, j :: 0 <= i < j < |s| ==> s[i] != s[j]
  }

  /** ids lists every key of the table once. */
  predicate Lists<T>(ids: seq<Id>, rows: map<Id, T>) {
    && NoDuplicates(ids)
    && (forall i :: 0 <= i < |ids| ==> ids[i] in rows)
    && (forall id :: id in rows ==> id in ids)
  }

  function TransferIds(transfers: seq<Transfer>): (r: seq<Id>)
    ensures |r| == |transfers|
    ensures forall i :: 0 <= i < |r| ==> r[i] == transfers[i].id
  {
    if transfers == [] then []
    else TransferIds(transfers[..|transfers| - 1]) + [transfers[|transfers| - 1].id]
  }

  // -------------------------------------------------------------- entries

  function EntriesOf(entries: seq<Entry>, account: Id): seq<Entry> {
    if entries == [] then []
    else
      var rest := EntriesOf(entries[..|entries| - 1], account);
      var e := entries[|entries| - 1];
      if e.account == account then rest + [e] else rest
  }

  function SumAmounts(entries: seq<Entry>): int {
    if entries == [] then 0
    else SumAmounts(entries[..|entries| - 1]) + entries[|entries| - 1].amount
  }

  function VersionsOf(entries: seq<Entry>): (r: seq<int>)
    ensures |r| == |entries|
    ensures forall i :: 0 <= i < |r| ==> r[i] == entries[i].version
  {
    if entries == [] then []
    else VersionsOf(entries[..|entries| - 1]) + [entries[|entries| - 1].version]
  }

  /** The entries link up from a zero balance to the given one. */
  predicate Chained(entries: seq<Entry>, balance: int) {
    if entries == [] then balance == 0
    else
      var e := entries[|entries| - 1];
      && e.currentBalance == balance
      && e.currentBalance == e.previousBalance + e.amount
      && Chained(entries[..|entries| - 1], e.previousBalance)
  }

  // ------------------------------------------------------ accounts and holds

  /** SUM(balance) over the listed accounts of one currency. */
  function CurrencyTotal(ids: seq<Id>, accounts: map<Id, Account>, currency: Currency): int
    requires forall i :: 0 <= i < |ids| ==> ids[i] in accounts
  {
    if ids == [] then 0
    else
      var a := accounts[ids[|ids| - 1]];
      CurrencyTotal(ids[..|ids| - 1], accounts, currency) + (if a.currency == currency then a.balance else 0)
  }

  /** Sum of the listed holds that are active and belong to the account. */
  function ActiveSum(ids: seq<Id>, holds: map<Id, Hold>, account: Id): int
    requires forall i :: 0 <= i < |ids| ==> ids[i] in holds
  {
    if ids == [] then 0
    else
      var h := holds[ids[|ids| - 1]];
      ActiveSum(ids[..|ids| - 1], holds, account) + (if h.status == Active && h.account == account then h.amount else 0)
  }

  // --------------------------------------------------------------- outbox

  function EventsOf(outbox: seq<OutboxEvent>, aggregate: Aggregate): seq<OutboxEvent> {
    if outbox == [] then []
    else
      var rest := EventsOf(outbox[..|outbox| - 1], aggregate);
      var e := outbox[|outbox| - 1];
      if e.aggregate == aggregate then rest + [e] else rest
  }

  /** The transfers named by event payloads, in outbox order. */
  function NamedTransfers(outbox: seq<OutboxEvent>): seq<Id> {
    if outbox == [] then []
    else
      var rest := NamedTransfers(outbox[..|outbox| - 1]);
      var e := outbox[|outbox| - 1];
      if e.transfer.Some? then rest + [e.transfer.value] else rest
  }

  // ---------------------------------------------------- history of updates

  /** One UPDATE of an account row: with an entry, or of the encumbered balance alone. */
  datatype Touch = Posted(account: Id) | Encumbered(account: Id)

  function BatchTouches(inputs: seq<TransferInput>): seq<Touch> {
    if inputs == [] then []
    else
      var last := inputs[|inputs| - 1];
      BatchTouches(inputs[..|inputs| - 1]) + [Posted(last.from), Posted(last.to)]
  }

  /** The account updates a command makes when it commits. */
  function Touches(l: Tables, c: Command): seq<Touch> {
    match c
    case Open(_, _, _) => []
    case Batch(inputs) => BatchTouches(inputs)
    case Reverse(original) =>
      (match FindTransfer(l.transfers, original)
       case None => []
       case Some(t) => [Posted(t.to), Posted(t.from)])
    case PlaceHold(account, _) => [Encumbered(account)]
    case Void(hold) => if hold in l.holds then [Encumbered(l.holds[hold].account)] else []
    case Capture(hold, to) => if hold in l.holds then [Posted(l.holds[hold].account), Posted(to)] else []
  }

  /** The account updates a run has committed, oldest first. */
  function History(steps: seq<Step>): seq<Touch> {
    if steps == [] then []
    else
      var n := |steps| - 1;
      var l := Run(steps[..n]);
      History(steps[..n]) +
      (if Apply(l, steps[n].command, steps[n].base, steps[n].at).Success? then Touches(l, steps[n].command) else [])
  }

  /** How many encumbrance-only updates the account has had since its last entry. */
  function PendingHolds(log: seq<Touch>, account: Id): nat {
    if log == [] then 0
    else
      var last := log[|log| - 1];
      if last.account != account then PendingHolds(log[..|log| - 1], account)
      else if last.Posted? then 0
      else PendingHolds(log[..|log| - 1], account) + 1
  }

  /** For each entry of the account, how many encumbrance-only updates came just before it. */
  function Gaps(log: seq<Touch>, account: Id): seq<nat> {
    if log == [] then []
    else
      var rest := log[..|log| - 1];
      if log[|log| - 1] == Posted(account) then Gaps(rest, account) + [PendingHolds(rest, account)]
      else Gaps(rest, account)
  }

  /** How many of the account's updates changed its encumbered balance alone. */
  function HoldUpdates(log: seq<Touch>, account: Id): nat {
    if log == [] then 0
    else HoldUpdates(log[..|log| - 1], account) + (if log[|log| - 1] == Encumbered(account) then 1 else 0)
  }

  // ------------------------------------------------------- appending lemmas

  lemma EntriesOfAppend(entries: seq<Entry>, e: Entry, account: Id)
    ensures EntriesOf(entries + [e], account) ==
            EntriesOf(entries, account) + (if e.account == account then [e] else [])
  {
    assert (entries + [e])[..|entries|] == entries;
  }

  lemma EventsOfAppend(outbox: seq<OutboxEvent>, e: OutboxEvent, aggregate: Aggregate)
    ensures EventsOf(outbox + [e], aggregate) ==
            EventsOf(outbox, aggregate) + (if e.aggregate == aggregate then [e] else [])
    ensures NamedTransfers(outbox + [e]) ==
            NamedTransfers(outbox) + (if e.transfer.Some? then [e.transfer.value] else [])
    ensures MaxSequence(outbox + [e], aggregate) ==
            if e.aggregate == aggregate && e.sequence > MaxSequence(outbox, aggregate) then e.sequence
            else MaxSequence(outbox, aggregate)
  {
    assert (outbox + [e])[..|outbox|] == outbox;
  }

  lemma {:induction false} EntriesOfMembers(entries: seq<Entry>, account: Id)
    ensures forall k :: 0 <= k < |EntriesOf(entries, account)| ==>
      EntriesOf(entries, account)[k] in entries && EntriesOf(entries, account)[k].account == account
    ensures forall k :: 0 <= k < |entries| && entries[k].account == account ==> entries[k] in EntriesOf(entries,
      account)
  {
    if entries != [] {
      EntriesOfMembers(entries[..|entries| - 1], account);
    }
  }

  lemma {:induction false} EventsOfMembers(outbox: seq<OutboxEvent>, aggregate: Aggregate)
    ensures forall k :: 0 <= k < |EventsOf(outbox, aggregate)| ==>
      EventsOf(outbox, aggregate)[k] in outbox && EventsOf(outbox, aggregate)[k].aggregate == aggregate
    ensures forall k :: 0 <= k < |outbox| && outbox[k].aggregate == aggregate ==> outbox[k] in EventsOf(outbox,
      aggregate)
  {
    if outbox != [] {
      EventsOfMembers(outbox[..|outbox| - 1], aggregate);
    }
  }

  // ------------------------------------------------------------ row updates

  /** Replacing one listed account's row moves its currency's total by the change in balance. */
  lemma {:induction false} CurrencyTotalUpdate(ids: seq<Id>, accounts: map<Id, Account>, id: Id, a: Account,
      currency: Currency)
    requires NoDuplicates(ids) && forall i :: 0 <= i < |ids| ==> ids[i] in accounts
    requires id in accounts && a.currency == accounts[id].currency
    ensures CurrencyTotal(ids, accounts[id := a], currency) == CurrencyTotal(ids, accounts, currency) +
      if id in ids && a.currency == currency then a.balance - accounts[id].balance else 0
  {
    if ids != [] {
      CurrencyTotalUpdate(ids[..|ids| - 1], accounts, id, a, currency);
      assert id in ids <==> id in ids[..|ids| - 1] || id == ids[|ids| - 1];
    }
  }

  lemma {:induction false} CurrencyTotalInsert(ids: seq<Id>, accounts: map<Id, Account>, id: Id, a: Account,
      currency: Currency)
    requires forall i :: 0 <= i < |ids| ==> ids[i] in accounts
    requires id !in accounts
    ensures CurrencyTotal(ids, accounts[id := a], currency) == CurrencyTotal(ids, accounts, currency)
  {
    if ids != [] {
      CurrencyTotalInsert(ids[..|ids| - 1], accounts, id, a, currency);
    }
  }

  /** Ending one listed hold takes exactly its amount out of its account's active sum. */
  lemma {:induction false} ActiveSumEnd(ids: seq<Id>, holds: map<Id, Hold>, id: Id, status: HoldStatus, account: Id)
    requires NoDuplicates(ids) && forall i :: 0 <= i < |ids| ==> ids[i] in holds
    requires id in holds && holds[id].status == Active && status != Active
    ensures ActiveSum(ids, holds[id := holds[id].(status := status)], account) == ActiveSum(ids, holds, account) -
      if id in ids && holds[id].account == account then holds[id].amount else 0
  {
    if ids != [] {
      ActiveSumEnd(ids[..|ids| - 1], holds, id, status, account);
      assert id in ids <==> id in ids[..|ids| - 1] || id == ids[|ids| - 1];
    }
  }

  lemma {:induction false} ActiveSumInsert(ids: seq<Id>, holds: map<Id, Hold>, id: Id, h: Hold, account: Id)
    requires forall i :: 0 <= i < |ids| ==> ids[i] in holds
    requires id !in holds
    ensures ActiveSum(ids, holds[id := h], account) == ActiveSum(ids, holds, account)
  {
    if ids != [] {
      ActiveSumInsert(ids[..|ids| - 1], holds, id, h, account);
    }
  }

  /** Positive hold amounts: an active hold's amount is part of, and at most, its account's active sum. */
  lemma {:induction false} ActiveSumBounds(ids: seq<Id>, holds: map<Id, Hold>, id: Id, account: Id)
    requires forall i :: 0 <= i < |ids| ==> ids[i] in holds
    requires forall h :: h in holds ==> holds[h].amount > 0
    ensures ActiveSum(ids, holds, account) >= 0
    ensures id in ids && holds[id].status == Active && holds[id].account == account ==>
      ActiveSum(ids, holds, account) >= holds[id].amount
  {
    if ids != [] {
      ActiveSumBounds(ids[..|ids| - 1], holds, id, account);
      assert id in ids <==> id in ids[..|ids| - 1] || id == ids[|ids| - 1];
    }
  }
}
