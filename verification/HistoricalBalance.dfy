/** The balance at a moment, read from the last entry not after it. */
module HistoricalBalance {
  import opened Wrappers
  import opened Domain
  import opened Ledger
  import opened Projections
  import opened Invariants
  import opened Reachability
  import opened EntryChain

  // ------------------------------------------------ order of ids and times

  /** The step draws its ids and reads its clock after every entry of the accounts it posts to. */
  ghost predicate LaterThan(l: Tables, s: Step) {
    forall i :: 0 <= i < |l.entries| && Posted(l.entries[i].account) in Touches(l, s.command) ==>
      l.entries[i].id < s.base && l.entries[i].createdAt <= s.at
  }

  /** Account by account, ids are drawn and clocks read in commit order. */
  ghost predicate OrderedRun(steps: seq<Step>) {
    steps == [] ||
    var n := |steps| - 1;
    OrderedRun(steps[..n]) && LaterThan(Run(steps[..n]), steps[n])
  }

  predicate Precedes(d: Entry, e: Entry) {
    d.id < e.id && d.createdAt <= e.createdAt
  }

  ghost predicate EntriesInOrder(entries: seq<Entry>) {
    forall i, j :: 0 <= i < j < |entries| && entries[i].account == entries[j].account ==> Precedes(entries[i],
      entries[j])
  }

  /** New entries at the end of a command's tables: on accounts it posts to, ids rising, all at its clock reading. */
  ghost predicate NewEntries(old_: seq<Entry>, new_: seq<Entry>, touches: seq<Touch>, base: Id, limit: Id, now: Time) {
    && old_ <= new_
    && (forall i :: |old_| <= i < |new_| ==> NewEntry(new_[i], touches, base, limit, now))
    && (forall i, j :: |old_| <= i < j < |new_| ==> new_[i].id < new_[j].id)
  }

  predicate NewEntry(e: Entry, touches: seq<Touch>, base: Id, limit: Id, now: Time) {
    Posted(e.account) in touches && base <= e.id < limit && e.createdAt == now
  }

  ghost predicate RowsKeyed(l: Tables) {
    forall id :: id in l.accounts ==> l.accounts[id].id == id
  }

  lemma MoveNewEntries(l: Tables, t: Transfer, release: int, now: Time, touches: seq<Touch>)
    requires RowsKeyed(l) && t.from in l.accounts && t.to in l.accounts
    requires Posted(t.from) in touches && Posted(t.to) in touches
    requires Move(l, t, release, now).Success?
    ensures NewEntries(l.entries, Move(l, t, release, now).value.entries, touches, t.id, t.id + 4, now)
    ensures RowsKeyed(Move(l, t, release, now).value)
  {
    MoveShape(l, t, release, now);
  }

  lemma NewEntriesTrans(a: seq<Entry>, b: seq<Entry>, c: seq<Entry>, ts: seq<Touch>, us: seq<Touch>, base: Id,
      mid: Id, limit: Id, now: Time)
    requires NewEntries(a, b, ts, base, mid, now) && NewEntries(b, c, us, mid, limit, now)
    requires forall x :: x in ts ==> x in us
    requires base <= mid <= limit
    ensures NewEntries(a, c, us, base, limit, now)
  {
    forall i | |a| <= i < |c|
      ensures NewEntry(c[i], us, base, limit, now)
    {
      if i < |b| {
        assert NewEntry(b[i], ts, base, mid, now) && c[i] == b[i];
      } else {
        assert NewEntry(c[i], us, mid, limit, now);
      }
    }
    forall i, j | |a| <= i < j < |c|
      ensures c[i].id < c[j].id
    {
      if i < |b| {
        assert NewEntry(b[i], ts, base, mid, now) && c[i] == b[i];
      }
      if j < |b| {
        assert c[j] == b[j];
      } else {
        assert NewEntry(c[j], us, mid, limit, now);
      }
    }
  }

  lemma PostTransferNewEntries(l: Tables, input: TransferInput, base: Id, now: Time, touches: seq<Touch>)
    requires RowsKeyed(l) && PostTransfer(l, input, base, now).Success?
    requires Posted(input.from) in touches && Posted(input.to) in touches
    ensures NewEntries(l.entries, PostTransfer(l, input, base, now).value.entries, touches, base, base + 4, now)
    ensures RowsKeyed(PostTransfer(l, input, base, now).value)
  {
    hide NewEntries;
    MoveNewEntries(l, Transfer(base, input.from, input.to, input.amount, now, input.reversed), 0, now, touches);
  }

  lemma {:induction false} PostAllNewEntries(l: Tables, inputs: seq<TransferInput>, base: Id, now: Time)
    requires RowsKeyed(l) && PostAll(l, inputs, base, now).Success?
    ensures NewEntries(l.entries, PostAll(l, inputs, base, now).value.entries, BatchTouches(inputs), base,
      base + 4 * |inputs|, now)
    ensures RowsKeyed(PostAll(l, inputs, base, now).value)
  {
    hide NewEntries, PostTransfer, RowsKeyed;
    if inputs == [] {
      NoNewEntries(l.entries, [], base, base, now);
    } else {
      var n := |inputs| - 1;
      PostAllNewEntries(l, inputs[..n], base, now);
      var l1 := PostAll(l, inputs[..n], base, now).value;
      var touches := BatchTouches(inputs);
      assert touches == BatchTouches(inputs[..n]) + [Posted(inputs[n].from), Posted(inputs[n].to)];
      assert touches[|touches| - 2] == Posted(inputs[n].from) && touches[|touches| - 1] == Posted(inputs[n].to);
      PostTransferNewEntries(l1, inputs[n], base + 4 * n, now, touches);
      NewEntriesTrans(l.entries, l1.entries, PostAll(l, inputs, base, now).value.entries, BatchTouches(inputs[..n]),
        touches,
                      base, base + 4 * n, base + 4 * |inputs|, now);
    }
  }

  lemma NoNewEntries(entries: seq<Entry>, touches: seq<Touch>, base: Id, limit: Id, now: Time)
    ensures NewEntries(entries, entries, touches, base, limit, now)
  {
  }

  lemma ReverseNewEntries(l: Tables, original: Id, base: Id, now: Time)
    requires RowsKeyed(l) && Apply(l, Reverse(original), base, now).Success?
    ensures NewEntries(l.entries, Apply(l, Reverse(original), base, now).value.entries, Touches(l, Reverse(original)),
      base, base + 4, now)
  {
    hide NewEntries;
    var input := ReversalOf(FindTransfer(l.transfers, original).value);
    PostAllNewEntries(l, [input], base, now);
    assert [input][..0] == [];
    assert BatchTouches([input]) == Touches(l, Reverse(original));
  }

  lemma CaptureNewEntries(l: Tables, hold: Id, to: Id, base: Id, now: Time)
    requires RowsKeyed(l) && CaptureHold(l, hold, to, base, now).Success?
    ensures NewEntries(l.entries, CaptureHold(l, hold, to, base, now).value.entries, Touches(l, Capture(hold, to)),
      base, base + 4, now)
  {
    hide NewEntries;
    var h, touches := l.holds[hold], Touches(l, Capture(hold, to));
    assert touches[0] == Posted(h.account) && touches[1] == Posted(to);
    MoveNewEntries(l, Transfer(base, h.account, to, h.amount, now, None), h.amount, now, touches);
  }

  lemma ApplyNewEntries(l: Tables, s: Step)
    requires RowsKeyed(l) && Apply(l, s.command, s.base, s.at).Success?
    ensures NewEntries(l.entries, Take(l, s).entries, Touches(l, s.command), s.base, s.base + Need(s.command), s.at)
  {
    hide NewEntries, RowsKeyed, PostAll, CaptureHold;
    var touches := Touches(l, s.command);
    match s.command
    case Batch(inputs) => PostAllNewEntries(l, inputs, s.base, s.at);
    case Reverse(original) => ReverseNewEntries(l, original, s.base, s.at);
    case Capture(hold, to) => CaptureNewEntries(l, hold, to, s.base, s.at);
    case Open(_, _, _) => NoNewEntries(l.entries, touches, s.base, s.base + Need(s.command), s.at);
    case PlaceHold(_, _) => NoNewEntries(l.entries, touches, s.base, s.base + Need(s.command), s.at);
    case Void(_) => NoNewEntries(l.entries, touches, s.base, s.base + Need(s.command), s.at);
  }

  lemma StepKeepsOrder(l: Tables, s: Step)
    requires RowsKeyed(l) && EntriesInOrder(l.entries) && LaterThan(l, s)
    ensures EntriesInOrder(Take(l, s).entries)
  {
    if Apply(l, s.command, s.base, s.at).Success? {
      ApplyNewEntries(l, s);
      hide Take;
      var es := Take(l, s).entries;
      forall i, j | 0 <= i < j < |es| && es[i].account == es[j].account
        ensures Precedes(es[i], es[j])
      {
        if j < |l.entries| {
          assert es[i] == l.entries[i] && es[j] == l.entries[j];
        } else {
          assert NewEntry(es[j], Touches(l, s.command), s.base, s.base + Need(s.command), s.at);
          if i < |l.entries| {
            assert es[i] == l.entries[i];
          } else {
            assert NewEntry(es[i], Touches(l, s.command), s.base, s.base + Need(s.command), s.at);
          }
        }
      }
    }
  }

  lemma {:induction false} OrderedRunKeepsOrder(steps: seq<Step>)
    requires FreshRun(steps) && OrderedRun(steps)
    ensures EntriesInOrder(Run(steps).entries)
  {
    if steps != [] {
      var n := |steps| - 1;
      OrderedRunKeepsOrder(steps[..n]);
      ReachableRowsKeyed(steps[..n]);
      StepKeepsOrder(Run(steps[..n]), steps[n]);
    }
  }

  lemma ReachableRowsKeyed(steps: seq<Step>)
    requires FreshRun(steps)
    ensures RowsKeyed(Run(steps))
  {
    forall id | id in Run(steps).accounts
      ensures Run(steps).accounts[id].id == id
    {
      ReachableTracked(steps, id);
    }
  }

  // ------------------------------------------------------------- the query

  /** The entry the query orders first: latest time, then latest id, among the account's entries not after t. */
  ghost predicate LatestEntry(entries: seq<Entry>, account: Id, t: Time, e: Entry) {
    && e in entries && e.account == account && e.createdAt <= t
    && forall d :: d in entries && d.account == account && d.createdAt <= t ==>
         d.createdAt < e.createdAt || (d.createdAt == e.createdAt && d.id <= e.id)
  }

  /** The result of the query: that entry's balance, or zero when there is none. */
  ghost predicate BalanceAtTime(entries: seq<Entry>, account: Id, t: Time, balance: int) {
    || (exists e :: LatestEntry(entries, account, t, e) && balance == e.currentBalance)
    || ((forall e :: e in entries && e.account == account ==> e.createdAt > t) && balance == 0)
  }

  /** Sum of the amounts of the entries not after t. */
  function SumUpTo(es: seq<Entry>, t: Time): int {
    if es == [] then 0
    else
      var last := es[|es| - 1];
      SumUpTo(es[..|es| - 1], t) + (if last.createdAt <= t then last.amount else 0)
  }

  ghost predicate AllInOrder(es: seq<Entry>) {
    forall i, j :: 0 <= i < j < |es| ==> Precedes(es[i], es[j])
  }

  lemma {:induction false} OwnEntriesInOrder(entries: seq<Entry>, account: Id)
    requires EntriesInOrder(entries)
    ensures AllInOrder(EntriesOf(entries, account))
  {
    if entries != [] {
      var n := |entries| - 1;
      OwnEntriesInOrder(entries[..n], account);
      if entries[n].account == account {
        EntriesOfMembers(entries[..n], account);
        var rest := EntriesOf(entries[..n], account);
        forall i | 0 <= i < |rest|
          ensures Precedes(rest[i], entries[n])
        {
          assert rest[i] in entries[..n];
          var k :| 0 <= k < n && entries[k] == rest[i];
        }
      }
    }
  }

  predicate IsLastUpTo(es: seq<Entry>, i: nat, t: Time)
    requires i < |es|
  {
    es[i].createdAt <= t && (i + 1 < |es| ==> es[i + 1].createdAt > t)
  }

  lemma {:induction false} NothingUpTo(es: seq<Entry>, t: Time)
    requires forall i :: 0 <= i < |es| ==> es[i].createdAt > t
    ensures SumUpTo(es, t) == 0
  {
    if es != [] {
      NothingUpTo(es[..|es| - 1], t);
    }
  }

  lemma {:induction false} EverythingUpTo(es: seq<Entry>, t: Time)
    requires forall i :: 0 <= i < |es| ==> es[i].createdAt <= t
    ensures SumUpTo(es, t) == SumAmounts(es)
  {
    if es != [] {
      EverythingUpTo(es[..|es| - 1], t);
    }
  }

  /** In order, the entries up to t are those up to position i. */
  lemma {:induction false} PrefixUpTo(es: seq<Entry>, t: Time, i: nat)
    requires AllInOrder(es) && i < |es| && IsLastUpTo(es, i, t)
    ensures SumUpTo(es, t) == SumAmounts(es[..i + 1])
  {
    var n := |es| - 1;
    if i == n {
      assert forall k :: 0 <= k < n ==> Precedes(es[k], es[n]);
      assert es[..n + 1] == es;
      EverythingUpTo(es, t);
    } else {
      assert i + 1 < n ==> Precedes(es[i + 1], es[n]);
      PrefixUpTo(es[..n], t, i);
      assert es[..n][..i + 1] == es[..i + 1];
    }
  }

  lemma {:induction false} ChainedPrefix(es: seq<Entry>, balance: int, i: nat)
    requires Chained(es, balance) && i < |es|
    ensures es[i].currentBalance == SumAmounts(es[..i + 1])
  {
    var n := |es| - 1;
    if i == n {
      assert es[..n + 1] == es;
      ChainedTelescopes(es, balance);
    } else {
      ChainedPrefix(es[..n], es[n].previousBalance, i);
      assert es[..n][..i + 1] == es[..i + 1];
    }
  }

  lemma LatestIsLastInOrder(es: seq<Entry>, t: Time, i: nat)
    requires AllInOrder(es) && i < |es| && es[i].createdAt <= t
    requires forall d :: d in es && d.createdAt <= t ==>
      d.createdAt < es[i].createdAt || (d.createdAt == es[i].createdAt && d.id <= es[i].id)
    ensures IsLastUpTo(es, i, t)
  {
    if i + 1 < |es| {
      assert Precedes(es[i], es[i + 1]);
    }
  }

  /**
   When ids are drawn and clocks read in commit order for each account, the queried
   balance at any moment is the sum of all the account's entries up to it, also when
   one batch posts to the account several times at the same timestamp.
  */
  lemma HistoricalBalanceIsSum(steps: seq<Step>, account: Id, t: Time, balance: int)
    requires FreshRun(steps) && OrderedRun(steps)
    requires account in Run(steps).accounts
    requires BalanceAtTime(Run(steps).entries, account, t, balance)
    ensures balance == SumUpTo(EntriesOf(Run(steps).entries, account), t)
  {
    var entries := Run(steps).entries;
    OrderedRunKeepsOrder(steps);
    OwnEntriesInOrder(entries, account);
    ReachableTracked(steps, account);
    hide Run, FreshRun, OrderedRun, EntriesOf, Chained;
    if exists e :: LatestEntry(entries, account, t, e) && balance == e.currentBalance {
      var e :| LatestEntry(entries, account, t, e) && balance == e.currentBalance;
      LatestBalance(entries, account, Run(steps).accounts[account].balance, t, e);
    } else {
      NoBalanceYet(entries, account, t);
    }
  }

  lemma LatestBalance(entries: seq<Entry>, account: Id, balance: int, t: Time, e: Entry)
    requires AllInOrder(EntriesOf(entries, account)) && Chained(EntriesOf(entries, account), balance)
    requires LatestEntry(entries, account, t, e)
    ensures e.currentBalance == SumUpTo(EntriesOf(entries, account), t)
  {
    EntriesOfMembers(entries, account);
    var es := EntriesOf(entries, account);
    hide EntriesOf, Chained, SumUpTo, AllInOrder;
    var k :| 0 <= k < |entries| && entries[k] == e;
    var i :| 0 <= i < |es| && es[i] == e;
    forall d | d in es && d.createdAt <= t
      ensures d.createdAt < e.createdAt || (d.createdAt == e.createdAt && d.id <= e.id)
    {
      var j :| 0 <= j < |es| && es[j] == d;
      assert d in entries;
    }
    LatestIsLastInOrder(es, t, i);
    PrefixUpTo(es, t, i);
    ChainedPrefix(es, balance, i);
  }

  lemma NoBalanceYet(entries: seq<Entry>, account: Id, t: Time)
    requires forall e :: e in entries && e.account == account ==> e.createdAt > t
    ensures SumUpTo(EntriesOf(entries, account), t) == 0
  {
    EntriesOfMembers(entries, account);
    var es := EntriesOf(entries, account);
    forall i | 0 <= i < |es|
      ensures es[i].createdAt > t
    {
      assert es[i] in entries;
    }
    NothingUpTo(es, t);
  }
}
