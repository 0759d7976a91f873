/**
 What every committed step keeps. Each part of the invariant speaks of the
 tables it needs and no others; Invariant joins them and ReachableInvariant
 carries them over every run.
*/
module Invariants {
  import opened Wrappers
  import opened Domain
  import opened Ledger
  import opened Projections

  // ---------------------------------------------------------------- parts

  function LastVersion(es: seq<Entry>): int {
    if es == [] then 0 else es[|es| - 1].version
  }

  /** Each entry's version is one above the previous entry's, plus the hold updates in between. */
  ghost predicate VersionsFollow(es: seq<Entry>, gaps: seq<nat>) {
    |es| == |gaps| && forall k :: 0 <= k < |es| ==> VersionFollows(es, gaps, k)
  }

  predicate VersionFollows(es: seq<Entry>, gaps: seq<nat>, k: nat)
    requires k < |es| == |gaps|
  {
    es[k].version == (if k == 0 then 0 else es[k - 1].version) + 1 + gaps[k]
  }

  /** The account's row, its entries and its share of the history agree. */
  ghost predicate Tracked(accounts: map<Id, Account>, entries: seq<Entry>, log: seq<Touch>, id: Id) {
    var es := EntriesOf(entries, id);
    if id in accounts then
      && accounts[id].id == id
      && Chained(es, accounts[id].balance)
      && VersionsFollow(es, Gaps(log, id))
      && accounts[id].version == LastVersion(es) + PendingHolds(log, id)
      && accounts[id].version == |es| + HoldUpdates(log, id)
    else
      es == [] && Gaps(log, id) == [] && PendingHolds(log, id) == 0 && HoldUpdates(log, id) == 0
  }

  ghost predicate AllTracked(accounts: map<Id, Account>, entries: seq<Entry>, log: seq<Touch>) {
    forall id: Id :: Tracked(accounts, entries, log, id)
  }

  ghost predicate AllPermitted(accounts: map<Id, Account>) {
    forall id :: id in accounts ==> accounts[id].Permitted()
  }

  /** Holds name open accounts and their active amounts are what is encumbered. */
  ghost predicate HoldsBacked(accounts: map<Id, Account>, ids: seq<Id>, holds: map<Id, Hold>) {
    && Lists(ids, holds)
    && (forall h :: h in holds ==> holds[h].id == h && holds[h].amount > 0 && holds[h].account in accounts)
    && (forall id :: id in accounts ==> accounts[id].encumbered == ActiveSum(ids, holds, id))
  }

  ghost predicate Balanced(ids: seq<Id>, accounts: map<Id, Account>) {
    && Lists(ids, accounts)
    && forall currency :: CurrencyTotal(ids, accounts, currency) == 0
  }

  predicate ValidTransfer(accounts: map<Id, Account>, t: Transfer) {
    && t.amount > 0 && t.from != t.to
    && t.from in accounts && t.to in accounts
    && accounts[t.from].currency == accounts[t.to].currency
  }

  /** The debit and the credit of one transfer. */
  predicate Opposite(t: Transfer, debit: Entry, credit: Entry) {
    && debit.transfer == t.id && debit.account == t.from && debit.amount == -t.amount
    && credit.transfer == t.id && credit.account == t.to && credit.amount == t.amount
  }

  /** Entries come in pairs, in the order of their transfers. */
  ghost predicate Paired(accounts: map<Id, Account>, transfers: seq<Transfer>, entries: seq<Entry>) {
    && |entries| == 2 * |transfers|
    && (forall k :: 0 <= k < |transfers| ==> ValidTransfer(accounts, transfers[k]))
    && (forall k :: 0 <= k < |transfers| ==> Opposite(transfers[k], entries[2 * k], entries[2 * k + 1]))
  }

  ghost predicate DistinctIds(l: Tables) {
    && NoDuplicates(TransferIds(l.transfers))
    && (forall i, j :: 0 <= i < j < |l.entries| ==> l.entries[i].id != l.entries[j].id)
    && (forall i, j :: 0 <= i < j < |l.outbox| ==> l.outbox[i].id != l.outbox[j].id)
  }

  ghost predicate ReversedOnce(transfers: seq<Transfer>) {
    forall i, j :: 0 <= i < j < |transfers| && transfers[i].reversed.Some? ==>
      transfers[i].reversed != transfers[j].reversed
  }

  predicate Numbered(es: seq<OutboxEvent>) {
    forall i :: 0 <= i < |es| ==> es[i].sequence == i + 1
  }

  /** The event names a transfer out of the hold's account for the hold's amount. */
  ghost predicate NamesCapture(transfers: seq<Transfer>, h: Hold, e: OutboxEvent) {
    exists i :: 0 <= i < |transfers| && e.transfer == Some(transfers[i].id) &&
      transfers[i].from == h.account && transfers[i].amount == h.amount && transfers[i].reversed == None
  }

  /** All events of one hold: its creation, then its end if it has ended. */
  ghost predicate HoldStory(es: seq<OutboxEvent>, h: Hold, transfers: seq<Transfer>) {
    && Numbered(es)
    && |es| == (if h.status == Active then 1 else 2)
    && es[0].eventType == HoldCreated && es[0].transfer == None
    && (h.status == Voided ==> es[1].eventType == HoldVoided && es[1].transfer == None)
    && (h.status == Captured ==> es[1].eventType == HoldCaptured && NamesCapture(transfers, h, es[1]))
  }

  /** A reversal is announced as reversed, any other transfer as created. */
  predicate HasTransferType(e: OutboxEvent, t: Transfer) {
    && (e.eventType == TransferReversed <==> t.reversed.Some?)
    && (e.eventType == TransferCreated <==> t.reversed.None?)
  }

  /** All events of one transfer: none if a capture made it, otherwise the one that names it. */
  ghost predicate TransferStory(es: seq<OutboxEvent>, t: Transfer) {
    es == [] ||
    (|es| == 1 && es[0].sequence == 1 && es[0].transfer == Some(t.id) && HasTransferType(es[0], t))
  }

  ghost predicate HoldsAnnounced(transfers: seq<Transfer>, holds: map<Id, Hold>, outbox: seq<OutboxEvent>) {
    forall id: Id :: if id in holds then HoldStory(EventsOf(outbox, HoldAggregate(id)), holds[id], transfers)
                     else EventsOf(outbox, HoldAggregate(id)) == []
  }

  ghost predicate TransfersAnnounced(transfers: seq<Transfer>, outbox: seq<OutboxEvent>) {
    && NamedTransfers(outbox) == TransferIds(transfers)
    && (forall i :: 0 <= i < |transfers| ==>
          TransferStory(EventsOf(outbox, TransferAggregate(transfers[i].id)), transfers[i]))
    && (forall id: Id :: !HasTransfer(transfers, id) ==> EventsOf(outbox, TransferAggregate(id)) == [])
  }

  ghost predicate Invariant(l: Tables, log: seq<Touch>) {
    && AllTracked(l.accounts, l.entries, log)
    && AllPermitted(l.accounts)
    && HoldsBacked(l.accounts, l.holdIds, l.holds)
    && Balanced(l.accountIds, l.accounts)
    && Paired(l.accounts, l.transfers, l.entries)
    && DistinctIds(l)
    && ReversedOnce(l.transfers)
    && HoldsAnnounced(l.transfers, l.holds, l.outbox)
    && TransfersAnnounced(l.transfers, l.outbox)
  }

  // ------------------------------------------------------- one entry posted

  lemma HistoryAppend(log: seq<Touch>, touch: Touch, id: Id)
    ensures Gaps(log + [touch], id) == Gaps(log, id) + (if touch == Posted(id) then [PendingHolds(log, id)] else [])
    ensures PendingHolds(log + [touch], id) ==
      if touch == Posted(id) then 0 else PendingHolds(log, id) + (if touch == Encumbered(id) then 1 else 0)
    ensures HoldUpdates(log + [touch], id) == HoldUpdates(log, id) + (if touch == Encumbered(id) then 1 else 0)
  {
    assert (log + [touch])[..|log|] == log;
  }

  lemma ChainedAppend(es: seq<Entry>, e: Entry, balance: int)
    requires Chained(es, balance)
    requires e.previousBalance == balance && e.currentBalance == balance + e.amount
    ensures Chained(es + [e], e.currentBalance)
  {
    assert (es + [e])[..|es|] == es;
  }

  lemma VersionsFollowAppend(es: seq<Entry>, e: Entry, gaps: seq<nat>, gap: nat)
    requires VersionsFollow(es, gaps)
    requires e.version == LastVersion(es) + 1 + gap
    ensures VersionsFollow(es + [e], gaps + [gap])
  {
    forall k | 0 <= k <= |es|
      ensures VersionFollows(es + [e], gaps + [gap], k)
    {
      assert k < |es| ==> VersionFollows(es, gaps, k);
    }
  }

  /** Posting an entry keeps every account's row, entries and history in agreement. */
  lemma PostTracked(accounts: map<Id, Account>, entries: seq<Entry>, log: seq<Touch>, account: Id,
                    id: Id, transfer: Id, amount: int, encumbered: int, now: Time)
    requires AllTracked(accounts, entries, log)
    requires account in accounts
    ensures
      var a := accounts[account];
      AllTracked(
        accounts[account := a.(balance := a.balance + amount, encumbered := encumbered, version := a.version + 1)],
        entries + [EntryFor(a, id, transfer, amount, now)], log + [Posted(account)])
  {
    var a := accounts[account];
    var e := EntryFor(a, id, transfer, amount, now);
    var accounts' := accounts[account := a.(balance := a.balance + amount, encumbered := encumbered,
      version := a.version + 1)];
    forall other: Id
      ensures Tracked(accounts', entries + [e], log + [Posted(account)], other)
    {
      assert Tracked(accounts, entries, log, other);
      assert Tracked(accounts, entries, log, account);
      EntriesOfAppend(entries, e, other);
      HistoryAppend(log, Posted(account), other);
      if other == account {
        var es := EntriesOf(entries, account);
        ChainedAppend(es, e, a.balance);
        VersionsFollowAppend(es, e, Gaps(log, account), PendingHolds(log, account));
      } else {
        assert EntriesOf(entries + [e], other) == EntriesOf(entries, other);
        assert Gaps(log + [Posted(account)], other) == Gaps(log, other);
      }
    }
  }

  lemma EncumberTracked(accounts: map<Id, Account>, entries: seq<Entry>, log: seq<Touch>, account: Id, encumbered: int)
    requires AllTracked(accounts, entries, log)
    requires account in accounts
    ensures
      var a := accounts[account];
      AllTracked(accounts[account := a.(encumbered := encumbered, version := a.version + 1)], entries,
        log + [Encumbered(account)])
  {
    var a := accounts[account];
    var accounts' := accounts[account := a.(encumbered := encumbered, version := a.version + 1)];
    forall other: Id
      ensures Tracked(accounts', entries, log + [Encumbered(account)], other)
    {
      assert Tracked(accounts, entries, log, other);
      HistoryAppend(log, Encumbered(account), other);
      assert Gaps(log + [Encumbered(account)], other) == Gaps(log, other);
    }
  }

  // ---------------------------------------------------------------- moves

  /** The rows a committed move leaves, written out. */
  ghost predicate Moved(l: Tables, t: Transfer, release: int, now: Time, l': Tables)
    requires t.from in l.accounts && t.to in l.accounts
  {
    var f, c := l.accounts[t.from], l.accounts[t.to];
    var f' := f.(balance := f.balance - t.amount, encumbered := f.encumbered - release, version := f.version + 1);
    var c' := c.(balance := c.balance + t.amount, version := c.version + 1);
    && t.amount > 0 && t.from != t.to
    && f'.Permitted() && c'.Permitted()
    && (t.reversed.Some? ==> !HasReversal(l.transfers, t.reversed.value))
    && l' == l.(
      transfers := l.transfers + [t],
      entries := l.entries + [EntryFor(f, t.id + 1, t.id, -t.amount, now)] + [EntryFor(c, t.id + 2, t.id, t.amount,
        now)],
      accounts := l.accounts[t.from := f'][t.to := c'])
  }

  lemma MoveShape(l: Tables, t: Transfer, release: int, now: Time)
    requires t.from in l.accounts && t.to in l.accounts
    requires Move(l, t, release, now).Success?
    ensures Moved(l, t, release, now, Move(l, t, release, now).value)
  {
    var f, c := l.accounts[t.from], l.accounts[t.to];
    assert l.accounts[t.from := f.(balance := f.balance - t.amount, encumbered := f.encumbered - release,
      version := f.version + 1)][t.to] == c;
    assert c.(balance := c.balance + t.amount, version := c.version + 1) ==
           c.(balance := c.balance + t.amount, encumbered := c.encumbered - 0, version := c.version + 1);
  }

  lemma MoveTracked(l: Tables, log: seq<Touch>, t: Transfer, release: int, now: Time, l': Tables)
    requires AllTracked(l.accounts, l.entries, log)
    requires t.from in l.accounts && t.to in l.accounts && Moved(l, t, release, now, l')
    ensures AllTracked(l'.accounts, l'.entries, log + [Posted(t.from), Posted(t.to)])
  {
    var f, c := l.accounts[t.from], l.accounts[t.to];
    PostTracked(l.accounts, l.entries, log, t.from, t.id + 1, t.id, -t.amount, f.encumbered - release, now);
    var accounts1 := l.accounts[t.from := f.(balance := f.balance + -t.amount, encumbered := f.encumbered - release,
      version := f.version + 1)];
    var entries1 := l.entries + [EntryFor(f, t.id + 1, t.id, -t.amount, now)];
    PostTracked(accounts1, entries1, log + [Posted(t.from)], t.to, t.id + 2, t.id, t.amount, c.encumbered, now);
    assert log + [Posted(t.from)] + [Posted(t.to)] == log + [Posted(t.from), Posted(t.to)];
    assert l'.accounts == accounts1[t.to := c.(balance := c.balance + t.amount, encumbered := c.encumbered,
      version := c.version + 1)];
  }

  lemma MoveBalanced(l: Tables, t: Transfer, release: int, now: Time, l': Tables)
    requires Balanced(l.accountIds, l.accounts)
    requires t.from in l.accounts && t.to in l.accounts && Moved(l, t, release, now, l')
    requires l.accounts[t.from].currency == l.accounts[t.to].currency
    ensures Balanced(l'.accountIds, l'.accounts)
  {
    var ids := l.accountIds;
    var accounts1 := l.accounts[t.from := l'.accounts[t.from]];
    forall currency
      ensures CurrencyTotal(ids, l'.accounts, currency) == 0
    {
      CurrencyTotalUpdate(ids, l.accounts, t.from, l'.accounts[t.from], currency);
      CurrencyTotalUpdate(ids, accounts1, t.to, l'.accounts[t.to], currency);
      assert l'.accounts == accounts1[t.to := l'.accounts[t.to]];
    }
  }

  lemma MovePaired(l: Tables, t: Transfer, release: int, now: Time, l': Tables)
    requires Paired(l.accounts, l.transfers, l.entries)
    requires t.from in l.accounts && t.to in l.accounts && Moved(l, t, release, now, l')
    requires l.accounts[t.from].currency == l.accounts[t.to].currency
    requires l.accounts[t.from].id == t.from && l.accounts[t.to].id == t.to
    ensures Paired(l'.accounts, l'.transfers, l'.entries)
  {
    var n := |l.transfers|;
    forall k | 0 <= k <= n
      ensures ValidTransfer(l'.accounts, l'.transfers[k])
      ensures Opposite(l'.transfers[k], l'.entries[2 * k], l'.entries[2 * k + 1])
    {
      if k < n {
        assert ValidTransfer(l.accounts, l.transfers[k]);
        assert Opposite(l.transfers[k], l.entries[2 * k], l.entries[2 * k + 1]);
      }
    }
  }

  lemma MoveDistinct(l: Tables, t: Transfer, release: int, now: Time, l': Tables)
    requires DistinctIds(l) && ReversedOnce(l.transfers)
    requires Fresh(l, t.id, 3)
    requires t.from in l.accounts && t.to in l.accounts && Moved(l, t, release, now, l')
    ensures DistinctIds(l') && ReversedOnce(l'.transfers)
  {
    assert Unused(l, t.id) && Unused(l, t.id + 1) && Unused(l, t.id + 2);
    hide Fresh, EntryFor, NoDuplicates;
    TransferIdsAppend(l.transfers, t);
    NewTransferId(l.transfers, t.id);
    NoDuplicatesAppend(TransferIds(l.transfers), t.id);
    hide TransferIds;
    var e1, e2 := l'.entries[|l.entries|], l'.entries[|l.entries| + 1];
    assert l'.entries == l.entries + [e1] + [e2];
    EntryIdsAppend(l.entries, e1);
    EntryIdsAppend(l.entries + [e1], e2);
  }

  lemma TransferIdsAppend(transfers: seq<Transfer>, t: Transfer)
    ensures TransferIds(transfers + [t]) == TransferIds(transfers) + [t.id]
  {
    assert (transfers + [t])[..|transfers|] == transfers;
  }

  lemma NoDuplicatesAppend(ids: seq<Id>, id: Id)
    requires NoDuplicates(ids) && id !in ids
    ensures NoDuplicates(ids + [id])
  {
  }

  lemma NewTransferId(transfers: seq<Transfer>, id: Id)
    requires forall i :: 0 <= i < |transfers| ==> transfers[i].id != id
    ensures id !in TransferIds(transfers)
  {
  }

  lemma EntryIdsAppend(entries: seq<Entry>, e: Entry)
    requires forall i, j :: 0 <= i < j < |entries| ==> entries[i].id != entries[j].id
    requires forall i :: 0 <= i < |entries| ==> entries[i].id != e.id
    ensures forall i, j :: 0 <= i < j < |entries + [e]| ==> (entries + [e])[i].id != (entries + [e])[j].id
  {
  }

  lemma MoveHoldsBacked(l: Tables, t: Transfer, now: Time, l': Tables)
    requires HoldsBacked(l.accounts, l.holdIds, l.holds)
    requires t.from in l.accounts && t.to in l.accounts && Moved(l, t, 0, now, l')
    ensures HoldsBacked(l'.accounts, l'.holdIds, l'.holds)
  {
  }

  // --------------------------------------------------------------- events

  lemma {:induction false} MaxSequenceCounts(outbox: seq<OutboxEvent>, aggregate: Aggregate)
    requires Numbered(EventsOf(outbox, aggregate))
    ensures MaxSequence(outbox, aggregate) == |EventsOf(outbox, aggregate)|
  {
    if outbox != [] {
      var rest, last := outbox[..|outbox| - 1], outbox[|outbox| - 1];
      var before, all := EventsOf(rest, aggregate), EventsOf(outbox, aggregate);
      assert forall i :: 0 <= i < |before| ==> before[i] == all[i];
      MaxSequenceCounts(rest, aggregate);
      if last.aggregate == aggregate {
        assert all[|before|] == last;
        assert last.sequence == |before| + 1;
      }
    }
  }

  /** Inserting a transfer and the transfer event that names it. */
  lemma TransferEventAnnounced(l: Tables, t: Transfer, id: Id, now: Time)
    requires HoldsAnnounced(l.transfers, l.holds, l.outbox) && TransfersAnnounced(l.transfers, l.outbox)
    requires Unused(l, t.id)
    ensures
      var l' := Emit(l.(transfers := l.transfers + [t]), id, TransferAggregate(t.id), TransferEventType(t),
        Some(t.id), now);
      HoldsAnnounced(l'.transfers, l'.holds, l'.outbox) && TransfersAnnounced(l'.transfers, l'.outbox)
  {
    var l' := Emit(l.(transfers := l.transfers + [t]), id, TransferAggregate(t.id), TransferEventType(t), Some(t.id),
      now);
    var e := l'.outbox[|l.outbox|];
    assert l'.outbox == l.outbox + [e];
    assert !HasTransfer(l.transfers, t.id);
    MaxSequenceCounts(l.outbox, TransferAggregate(t.id));
    EventsOfAppend(l.outbox, e, TransferAggregate(t.id));
    assert (l.transfers + [t])[..|l.transfers|] == l.transfers;
    forall h: Id
      ensures if h in l.holds then HoldStory(EventsOf(l'.outbox, HoldAggregate(h)), l.holds[h], l'.transfers)
              else EventsOf(l'.outbox, HoldAggregate(h)) == []
    {
      EventsOfAppend(l.outbox, e, HoldAggregate(h));
      assert EventsOf(l'.outbox, HoldAggregate(h)) == EventsOf(l.outbox, HoldAggregate(h));
      if h in l.holds {
        StoryGrows(EventsOf(l.outbox, HoldAggregate(h)), l.holds[h], l.transfers, t);
      }
    }
    TransferStoriesKept(l, l', t, e);
  }

  lemma StoryGrows(es: seq<OutboxEvent>, h: Hold, transfers: seq<Transfer>, t: Transfer)
    requires HoldStory(es, h, transfers)
    ensures HoldStory(es, h, transfers + [t])
  {
    if h.status == Captured {
      var i :| 0 <= i < |transfers| && es[1].transfer == Some(transfers[i].id) &&
        transfers[i].from == h.account && transfers[i].amount == h.amount && transfers[i].reversed == None;
      assert (transfers + [t])[i] == transfers[i];
    }
  }

  /** Appending a transfer and the event that names it. */
  lemma TransferStoriesKept(l: Tables, l': Tables, t: Transfer, e: OutboxEvent)
    requires TransfersAnnounced(l.transfers, l.outbox)
    requires !HasTransfer(l.transfers, t.id)
    requires l'.transfers == l.transfers + [t] && l'.outbox == l.outbox + [e]
    requires e.transfer == Some(t.id) && (e.aggregate.TransferAggregate? ==> e.aggregate.id == t.id)
    requires TransferStory(EventsOf(l'.outbox, TransferAggregate(t.id)), t)
    ensures TransfersAnnounced(l'.transfers, l'.outbox)
  {
    hide TransferStory, EventsOf, NamedTransfers, TransferIds, HasTransfer, HasReversal;
    EventsOfAppend(l.outbox, e, TransferAggregate(t.id));
    TransferIdsAppend(l.transfers, t);
    forall i | 0 <= i < |l'.transfers|
      ensures TransferStory(EventsOf(l'.outbox, TransferAggregate(l'.transfers[i].id)), l'.transfers[i])
    {
      if i < |l.transfers| {
        OtherId(l.transfers, i, t.id);
        OtherTransferEvents(l.outbox, e, t.id, l.transfers[i].id);
      }
    }
    forall id: Id | !HasTransfer(l'.transfers, id)
      ensures EventsOf(l'.outbox, TransferAggregate(id)) == []
    {
      HasAppend(l.transfers, t, id);
      OtherTransferEvents(l.outbox, e, t.id, id);
    }
  }

  lemma OtherId(transfers: seq<Transfer>, i: nat, id: Id)
    requires i < |transfers| && !HasTransfer(transfers, id)
    ensures transfers[i].id != id
  {
  }

  lemma HasAppend(transfers: seq<Transfer>, t: Transfer, id: Id)
    ensures HasReversal(transfers + [t], id) <==> HasReversal(transfers, id) || t.reversed == Some(id)
    ensures HasTransfer(transfers + [t], id) <==> HasTransfer(transfers, id) || t.id == id
  {
    var all := transfers + [t];
    assert all[|transfers|] == t && forall i :: 0 <= i < |transfers| ==> all[i] == transfers[i];
  }

  lemma OtherTransferEvents(outbox: seq<OutboxEvent>, e: OutboxEvent, id: Id, other: Id)
    requires e.aggregate.TransferAggregate? ==> e.aggregate.id == id
    requires other != id
    ensures EventsOf(outbox + [e], TransferAggregate(other)) == EventsOf(outbox, TransferAggregate(other))
  {
    EventsOfAppend(outbox, e, TransferAggregate(other));
    assert EventsOf(outbox, TransferAggregate(other)) + [] == EventsOf(outbox, TransferAggregate(other));
  }

  /** An event on a hold that names no transfer leaves every other aggregate's events alone. */
  lemma HoldEventAnnounced(l: Tables, holds': map<Id, Hold>, hold: Id, id: Id, eventType: EventType, now: Time)
    requires HoldsAnnounced(l.transfers, l.holds, l.outbox) && TransfersAnnounced(l.transfers, l.outbox)
    requires hold in holds' && holds' == l.holds[hold := holds'[hold]]
    requires
      || (hold !in l.holds && holds'[hold].status == Active && eventType == HoldCreated)
      || (hold in l.holds && l.holds[hold].status == Active && holds'[hold].status == Voided && eventType == HoldVoided)
    ensures
      var l' := Emit(l, id, HoldAggregate(hold), eventType, None, now);
      HoldsAnnounced(l.transfers, holds', l'.outbox) && TransfersAnnounced(l.transfers, l'.outbox)
  {
    var l' := Emit(l, id, HoldAggregate(hold), eventType, None, now);
    var e := l'.outbox[|l.outbox|];
    assert l'.outbox == l.outbox + [e];
    assert if hold in l.holds then HoldStory(EventsOf(l.outbox, HoldAggregate(hold)), l.holds[hold], l.transfers)
           else EventsOf(l.outbox, HoldAggregate(hold)) == [];
    MaxSequenceCounts(l.outbox, HoldAggregate(hold));
    EventsOfAppend(l.outbox, e, HoldAggregate(hold));
    assert HoldStory(EventsOf(l'.outbox, HoldAggregate(hold)), holds'[hold], l.transfers);
    OtherHoldsAnnounced(l, holds', hold, e);
    UnnamedEventAnnounced(l.transfers, l.outbox, e);
  }

  lemma OtherHoldsAnnounced(l: Tables, holds': map<Id, Hold>, hold: Id, e: OutboxEvent)
    requires HoldsAnnounced(l.transfers, l.holds, l.outbox)
    requires hold in holds' && holds' == l.holds[hold := holds'[hold]] && e.aggregate == HoldAggregate(hold)
    requires HoldStory(EventsOf(l.outbox + [e], HoldAggregate(hold)), holds'[hold], l.transfers)
    ensures HoldsAnnounced(l.transfers, holds', l.outbox + [e])
  {
    hide HoldStory;
    forall h: Id
      ensures if h in holds' then HoldStory(EventsOf(l.outbox + [e], HoldAggregate(h)), holds'[h], l.transfers)
              else EventsOf(l.outbox + [e], HoldAggregate(h)) == []
    {
      EventsOfAppend(l.outbox, e, HoldAggregate(h));
      if h != hold {
        assert EventsOf(l.outbox + [e], HoldAggregate(h)) == EventsOf(l.outbox, HoldAggregate(h));
      }
    }
  }

  lemma UnnamedEventAnnounced(transfers: seq<Transfer>, outbox: seq<OutboxEvent>, e: OutboxEvent)
    requires TransfersAnnounced(transfers, outbox)
    requires e.aggregate.HoldAggregate? && e.transfer == None
    ensures TransfersAnnounced(transfers, outbox + [e])
  {
    hide TransferStory;
    EventsOfAppend(outbox, e, e.aggregate);
    assert NamedTransfers(outbox) + [] == NamedTransfers(outbox);
    forall t: Id
      ensures EventsOf(outbox + [e], TransferAggregate(t)) == EventsOf(outbox, TransferAggregate(t))
    {
      EventsOfAppend(outbox, e, TransferAggregate(t));
      assert EventsOf(outbox, TransferAggregate(t)) + [] == EventsOf(outbox, TransferAggregate(t));
    }
  }

  /** Inserting a capture transfer with the hold event that names it. */
  lemma CaptureEventAnnounced(l: Tables, t: Transfer, hold: Id, id: Id, now: Time)
    requires HoldsAnnounced(l.transfers, l.holds, l.outbox) && TransfersAnnounced(l.transfers, l.outbox)
    requires Unused(l, t.id)
    requires hold in l.holds && l.holds[hold].status == Active
    requires t.from == l.holds[hold].account && t.amount == l.holds[hold].amount && t.reversed == None
    ensures
      var l' := Emit(l.(transfers := l.transfers + [t], holds := l.holds[hold := l.holds[hold].(status := Captured)]),
                     id, HoldAggregate(hold), HoldCaptured, Some(t.id), now);
      HoldsAnnounced(l'.transfers, l'.holds, l'.outbox) && TransfersAnnounced(l'.transfers, l'.outbox)
  {
    var l' := Emit(l.(transfers := l.transfers + [t], holds := l.holds[hold := l.holds[hold].(status := Captured)]),
                   id, HoldAggregate(hold), HoldCaptured, Some(t.id), now);
    var e := l'.outbox[|l.outbox|];
    assert l'.outbox == l.outbox + [e];
    assert HoldStory(EventsOf(l.outbox, HoldAggregate(hold)), l.holds[hold], l.transfers);
    MaxSequenceCounts(l.outbox, HoldAggregate(hold));
    assert l'.transfers[|l.transfers|] == t;
    forall h: Id
      ensures if h in l'.holds then HoldStory(EventsOf(l'.outbox, HoldAggregate(h)), l'.holds[h], l'.transfers)
              else EventsOf(l'.outbox, HoldAggregate(h)) == []
    {
      EventsOfAppend(l.outbox, e, HoldAggregate(h));
      if h == hold {
        assert NamesCapture(l'.transfers, l'.holds[h], e);
      } else {
        assert EventsOf(l'.outbox, HoldAggregate(h)) == EventsOf(l.outbox, HoldAggregate(h));
        if h in l.holds {
          StoryGrows(EventsOf(l.outbox, HoldAggregate(h)), l.holds[h], l.transfers, t);
        }
      }
    }
    assert !HasTransfer(l.transfers, t.id);
    EventsOfAppend(l.outbox, e, TransferAggregate(t.id));
    TransferStoriesKept(l, l', t, e);
  }
}
