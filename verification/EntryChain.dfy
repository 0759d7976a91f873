/**
 Walking one account's entry chain: the walk itself, what its verdict means on
 any rows at all, and the exact verdict on every reachable ledger.
*/
module EntryChain {
  import opened Domain
  import opened Ledger
  import opened Projections
  import opened Invariants
  import opened Reachability

  datatype Reason =
    | FirstVersion(found: int)
    | BalanceMismatch(found: int, expected: int)
    | VersionGap(found: int, prior: int)

  datatype Break = Break(entry: Id, sequence: nat, reason: Reason)

  /** Row i starts the chain at version 1, or links to the row before it. */
  predicate Linked(rows: seq<Entry>, i: nat)
    requires i < |rows|
  {
    if i == 0 then rows[0].version == 1
    else rows[i].previousBalance == rows[i - 1].currentBalance && rows[i].version == rows[i - 1].version + 1
  }

  /** The breaks reported for row i, in the order they are reported. */
  function BreaksAt(rows: seq<Entry>, i: nat): seq<Break>
    requires i < |rows|
  {
    var e := rows[i];
    if i == 0 then
      if e.version != 1 then [Break(e.id, 0, FirstVersion(e.version))] else []
    else
      var p := rows[i - 1];
      (if e.previousBalance != p.currentBalance
       then [Break(e.id, i, BalanceMismatch(e.previousBalance, p.currentBalance))] else [])
      + (if e.version != p.version + 1 then [Break(e.id, i, VersionGap(e.version, p.version))] else [])
  }

  /** The breaks reported for the first n rows. */
  function BreaksBefore(rows: seq<Entry>, n: nat): seq<Break>
    requires n <= |rows|
  {
    if n == 0 then [] else BreaksBefore(rows, n - 1) + BreaksAt(rows, n - 1)
  }

  function BreaksOf(rows: seq<Entry>): seq<Break> {
    BreaksBefore(rows, |rows|)
  }

  lemma LinkedMeansNoBreaks(rows: seq<Entry>, i: nat)
    requires i < |rows|
    ensures BreaksAt(rows, i) == [] <==> Linked(rows, i)
  {
  }

  lemma BreaksGrow(rows: seq<Entry>, n: nat)
    requires n < |rows|
    ensures BreaksBefore(rows, n + 1) == BreaksBefore(rows, n) + BreaksAt(rows, n)
  {
    hide BreaksAt;
  }

  lemma NoBreaksYet(rows: seq<Entry>)
    ensures BreaksBefore(rows, 0) == []
  {
  }

  lemma {:induction false} NoBreaksMeansLinked(rows: seq<Entry>, n: nat)
    requires n <= |rows|
    ensures BreaksBefore(rows, n) == [] <==> forall i :: 0 <= i < n ==> Linked(rows, i)
  {
    hide BreaksAt, Linked;
    if n > 0 {
      NoBreaksMeansLinked(rows, n - 1);
      LinkedMeansNoBreaks(rows, n - 1);
    }
  }

  /** One break of the walk, told from the rows alone. */
  predicate IsBreak(rows: seq<Entry>, b: Break) {
    && b.sequence < |rows| && b.entry == rows[b.sequence].id
    && match b.reason
       case FirstVersion(found) => b.sequence == 0 && found == rows[0].version && found != 1
       case BalanceMismatch(found, expected) =>
         && b.sequence > 0 && found == rows[b.sequence].previousBalance
         && expected == rows[b.sequence - 1].currentBalance && found != expected
       case VersionGap(found, prior) =>
         && b.sequence > 0 && found == rows[b.sequence].version
         && prior == rows[b.sequence - 1].version && found != prior + 1
  }

  /** Row by row, and on one row the balance before the version. */
  predicate ReportedBefore(b: Break, c: Break) {
    b.sequence < c.sequence || (b.sequence == c.sequence && b.reason.BalanceMismatch? && c.reason.VersionGap?)
  }

  lemma BreaksOfRow(rows: seq<Entry>, i: nat, b: Break)
    requires i < |rows|
    ensures b in BreaksAt(rows, i) <==> IsBreak(rows, b) && b.sequence == i
  {
  }

  lemma {:induction false} BreaksAreThese(rows: seq<Entry>, n: nat, b: Break)
    requires n <= |rows|
    ensures b in BreaksBefore(rows, n) <==> IsBreak(rows, b) && b.sequence < n
  {
    hide IsBreak, BreaksAt;
    if n > 0 {
      BreaksAreThese(rows, n - 1, b);
      BreaksOfRow(rows, n - 1, b);
      BreaksGrow(rows, n - 1);
    }
  }

  predicate InOrder(breaks: seq<Break>) {
    forall i, j :: 0 <= i < j < |breaks| ==> ReportedBefore(breaks[i], breaks[j])
  }

  lemma RowInOrder(rows: seq<Entry>, i: nat)
    requires i < |rows|
    ensures InOrder(BreaksAt(rows, i))
  {
  }

  lemma InOrderThen(before: seq<Break>, here: seq<Break>, row: nat)
    requires InOrder(before) && InOrder(here)
    requires forall b :: b in before ==> b.sequence < row
    requires forall b :: b in here ==> b.sequence == row
    ensures InOrder(before + here)
  {
    forall i, j | 0 <= i < j < |before + here|
      ensures ReportedBefore((before + here)[i], (before + here)[j])
    {
      if i < |before| <= j {
        assert before[i] in before && here[j - |before|] in here;
      }
    }
  }

  lemma NothingInOrder()
    ensures InOrder([])
  {
  }

  lemma {:induction false} BreaksInOrder(rows: seq<Entry>, n: nat)
    requires n <= |rows|
    ensures InOrder(BreaksBefore(rows, n))
  {
    hide *;
    if n == 0 {
      NoBreaksYet(rows);
      NothingInOrder();
    } else {
      BreaksInOrder(rows, n - 1);
      RowInOrder(rows, n - 1);
      BreaksGrow(rows, n - 1);
      forall b | b in BreaksBefore(rows, n - 1)
        ensures b.sequence < n - 1
      {
        BreaksAreThese(rows, n - 1, b);
      }
      forall b | b in BreaksAt(rows, n - 1)
        ensures b.sequence == n - 1
      {
        BreaksOfRow(rows, n - 1, b);
      }
      InOrderThen(BreaksBefore(rows, n - 1), BreaksAt(rows, n - 1), n - 1);
    }
  }

  /** The walk over the ordered rows, carrying the previous balance and version. */
  method VerifyEntryChain(rows: seq<Entry>) returns (breaks: seq<Break>, valid: bool)
    ensures breaks == BreaksOf(rows)
    ensures forall b :: b in breaks <==> IsBreak(rows, b)
    ensures forall i, j :: 0 <= i < j < |breaks| ==> ReportedBefore(breaks[i], breaks[j])
    ensures valid <==> breaks == []
    ensures valid <==> forall i :: 0 <= i < |rows| ==> Linked(rows, i)
  {
    hide BreaksBefore, Linked;
    NoBreaksYet(rows);
    breaks, valid := [], true;
    var prevBalance, prevVersion := 0, 0;
    for i := 0 to |rows|
      invariant breaks == BreaksBefore(rows, i)
      invariant valid <==> breaks == []
      invariant i > 0 ==> prevBalance == rows[i - 1].currentBalance && prevVersion == rows[i - 1].version
    {
      var e := rows[i];
      if i == 0 {
        if e.version != 1 {
          valid := false;
          breaks := breaks + [Break(e.id, i, FirstVersion(e.version))];
        }
      } else {
        if e.previousBalance != prevBalance {
          valid := false;
          breaks := breaks + [Break(e.id, i, BalanceMismatch(e.previousBalance, prevBalance))];
        }
        if e.version != prevVersion + 1 {
          valid := false;
          breaks := breaks + [Break(e.id, i, VersionGap(e.version, prevVersion))];
        }
      }
      BreaksGrow(rows, i);
      prevBalance, prevVersion := e.currentBalance, e.version;
    }
    NoBreaksMeansLinked(rows, |rows|);
    BreaksInOrder(rows, |rows|);
    WholeWalk(rows);
  }

  lemma WholeWalk(rows: seq<Entry>)
    ensures forall b :: b in BreaksBefore(rows, |rows|) <==> IsBreak(rows, b)
  {
    hide BreaksBefore;
    forall b: Break
      ensures b in BreaksBefore(rows, |rows|) <==> IsBreak(rows, b)
    {
      BreaksAreThese(rows, |rows|, b);
    }
  }

  // ------------------------------------------------- the ordered listing

  ghost predicate VersionsSorted(rows: seq<Entry>) {
    forall i, j :: 0 <= i < j < |rows| ==> rows[i].version <= rows[j].version
  }

  ghost predicate VersionsIncrease(es: seq<Entry>) {
    forall i, j :: 0 <= i < j < |es| ==> es[i].version < es[j].version
  }

  /** Any result of the query that orders an account's entries by version. */
  ghost predicate ListsByVersion(rows: seq<Entry>, entries: seq<Entry>, account: Id) {
    multiset(rows) == multiset(EntriesOf(entries, account)) && VersionsSorted(rows)
  }

  lemma LastIsSame(rows: seq<Entry>, es: seq<Entry>)
    requires rows != [] && |rows| == |es| && multiset(rows) == multiset(es)
    requires VersionsSorted(rows) && VersionsIncrease(es)
    ensures rows[|rows| - 1] == es[|es| - 1]
  {
    var n := |rows| - 1;
    assert rows[n] in multiset(es);
    var k :| 0 <= k <= n && es[k] == rows[n];
    assert es[n] in multiset(rows);
    var m :| 0 <= m <= n && rows[m] == es[n];
    assert es[n].version <= es[k].version;
  }

  lemma PrefixOrder(rows: seq<Entry>, es: seq<Entry>)
    requires rows != [] && es != []
    requires VersionsSorted(rows) && VersionsIncrease(es)
    ensures VersionsSorted(rows[..|rows| - 1]) && VersionsIncrease(es[..|es| - 1])
  {
  }

  /** Strictly increasing versions leave the ordered query one possible result. */
  lemma {:induction false} OrderedUniquely(rows: seq<Entry>, es: seq<Entry>)
    requires multiset(rows) == multiset(es)
    requires VersionsSorted(rows) && VersionsIncrease(es)
    ensures rows == es
  {
    hide VersionsSorted, VersionsIncrease;
    assert |rows| == |multiset(rows)| == |multiset(es)| == |es|;
    if rows != [] {
      LastIsSame(rows, es);
      PrefixOrder(rows, es);
      var n := |rows| - 1;
      SamePrefix(rows, es);
      OrderedUniquely(rows[..n], es[..n]);
      assert rows == rows[..n] + [rows[n]] && es == es[..n] + [es[n]];
    }
  }

  lemma SamePrefix(rows: seq<Entry>, es: seq<Entry>)
    requires multiset(rows) == multiset(es) && |rows| == |es| > 0 && rows[|rows| - 1] == es[|es| - 1]
    ensures multiset(rows[..|rows| - 1]) == multiset(es[..|rows| - 1])
  {
    var n := |rows| - 1;
    assert rows == rows[..n] + [rows[n]] && es == es[..n] + [rows[n]];
    assert multiset(rows[..n]) == multiset(rows) - multiset{rows[n]};
    assert multiset(es[..n]) == multiset(es) - multiset{rows[n]};
  }

  lemma {:induction false} FollowingVersionsIncrease(es: seq<Entry>, gaps: seq<nat>)
    requires VersionsFollow(es, gaps)
    ensures VersionsIncrease(es)
  {
    if es != [] {
      var n := |es| - 1;
      forall k | 0 <= k < n
        ensures VersionFollows(es[..n], gaps[..n], k)
      {
        assert VersionFollows(es, gaps, k);
      }
      FollowingVersionsIncrease(es[..n], gaps[..n]);
      assert VersionFollows(es, gaps, n);
    }
  }

  // ------------------------------------------------------- exact verdict

  /** What the walk reports for row i when `gap` encumbrance-only updates came just before it. */
  function GapBreak(rows: seq<Entry>, i: nat, gap: nat): seq<Break>
    requires i < |rows|
  {
    if gap == 0 then []
    else if i == 0 then [Break(rows[0].id, 0, FirstVersion(1 + gap))]
    else [Break(rows[i].id, i, VersionGap(rows[i - 1].version + 1 + gap, rows[i - 1].version))]
  }

  predicate BalanceLinks(rows: seq<Entry>, i: nat)
    requires i < |rows|
  {
    i > 0 ==> rows[i].previousBalance == rows[i - 1].currentBalance
  }

  lemma {:induction false} ChainedLinks(es: seq<Entry>, balance: int)
    requires Chained(es, balance)
    ensures es != [] ==> es[0].previousBalance == 0
    ensures forall i :: 0 <= i < |es| ==> BalanceLinks(es, i)
  {
    if es != [] {
      var n := |es| - 1;
      ChainedLinks(es[..n], es[n].previousBalance);
      assert forall i :: 0 <= i < n ==> BalanceLinks(es[..n], i) == BalanceLinks(es, i);
      assert n > 0 ==> es[..n][n - 1] == es[n - 1];
    }
  }

  lemma ReachableTracked(steps: seq<Step>, account: Id)
    requires FreshRun(steps)
    ensures Tracked(Run(steps).accounts, Run(steps).entries, History(steps), account)
  {
    ReachableInvariant(steps);
  }

  /**
   On every reachable ledger the walk never reports a balance break. It reports
   one version break for each entry that follows encumbrance-only updates of its
   account, naming the versions involved, and nothing else.
  */
  lemma ChainVerdict(steps: seq<Step>, account: Id, rows: seq<Entry>)
    requires FreshRun(steps)
    requires account in Run(steps).accounts
    requires ListsByVersion(rows, Run(steps).entries, account)
    ensures
      var gaps := Gaps(History(steps), account);
      && |rows| == |gaps|
      && (forall i :: 0 <= i < |rows| ==> BreaksAt(rows, i) == GapBreak(rows, i, gaps[i]))
      && (BreaksOf(rows) == [] <==> forall i :: 0 <= i < |gaps| ==> gaps[i] == 0)
    ensures Run(steps).accounts[account].version == |rows| + HoldUpdates(History(steps), account)
  {
    var l, log := Run(steps), History(steps);
    ReachableTracked(steps, account);
    var es, gaps := EntriesOf(l.entries, account), Gaps(log, account);
    FollowingVersionsIncrease(es, gaps);
    OrderedUniquely(rows, es);
    ChainedLinks(es, l.accounts[account].balance);
    VerdictOfTracked(rows, gaps);
  }

  lemma VerdictOfTracked(rows: seq<Entry>, gaps: seq<nat>)
    requires VersionsFollow(rows, gaps)
    requires forall i :: 0 <= i < |rows| ==> BalanceLinks(rows, i)
    ensures forall i :: 0 <= i < |rows| ==> BreaksAt(rows, i) == GapBreak(rows, i, gaps[i])
    ensures BreaksOf(rows) == [] <==> forall i :: 0 <= i < |gaps| ==> gaps[i] == 0
  {
    forall i | 0 <= i < |rows|
      ensures BreaksAt(rows, i) == GapBreak(rows, i, gaps[i])
      ensures gaps[i] == 0 <==> Linked(rows, i)
    {
      assert VersionFollows(rows, gaps, i) && BalanceLinks(rows, i);
      LinkedMeansNoBreaks(rows, i);
    }
    NoBreaksMeansLinked(rows, |rows|);
  }

  lemma {:induction false} NoHoldUpdatesNoGaps(log: seq<Touch>, account: Id)
    requires HoldUpdates(log, account) == 0
    ensures PendingHolds(log, account) == 0
    ensures forall i :: 0 <= i < |Gaps(log, account)| ==> Gaps(log, account)[i] == 0
  {
    if log != [] {
      NoHoldUpdatesNoGaps(log[..|log| - 1], account);
    }
  }

  predicate HoldFree(steps: seq<Step>) {
    forall i :: 0 <= i < |steps| ==> !steps[i].command.PlaceHold? && !steps[i].command.Void?
  }

  lemma {:induction false} BatchTouchesPost(inputs: seq<TransferInput>)
    ensures forall i :: 0 <= i < |BatchTouches(inputs)| ==> BatchTouches(inputs)[i].Posted?
  {
    if inputs != [] {
      BatchTouchesPost(inputs[..|inputs| - 1]);
    }
  }

  lemma {:induction false} HoldFreeHistory(steps: seq<Step>)
    requires HoldFree(steps)
    ensures forall i :: 0 <= i < |History(steps)| ==> History(steps)[i].Posted?
  {
    if steps != [] {
      var n := |steps| - 1;
      HoldFreeHistory(steps[..n]);
      var c := steps[n].command;
      if c.Batch? {
        BatchTouchesPost(c.inputs);
      }
      var touches := Touches(Run(steps[..n]), c);
      assert forall i :: 0 <= i < |touches| ==> touches[i].Posted?;
    }
  }

  lemma {:induction false} PostsAreNotHoldUpdates(log: seq<Touch>, account: Id)
    requires forall i :: 0 <= i < |log| ==> log[i].Posted?
    ensures HoldUpdates(log, account) == 0
  {
    if log != [] {
      PostsAreNotHoldUpdates(log[..|log| - 1], account);
    }
  }

  /** Without placed or voided holds every account's chain is valid and its version is its entry count. */
  lemma HoldFreeChainsValid(steps: seq<Step>, account: Id, rows: seq<Entry>)
    requires FreshRun(steps) && HoldFree(steps)
    requires account in Run(steps).accounts
    requires ListsByVersion(rows, Run(steps).entries, account)
    ensures BreaksOf(rows) == []
    ensures Run(steps).accounts[account].version == |rows|
  {
    HoldFreeHistory(steps);
    PostsAreNotHoldUpdates(History(steps), account);
    NoHoldUpdatesNoGaps(History(steps), account);
    ChainVerdict(steps, account, rows);
  }

  // ------------------------------------------------- detector on any rows

  lemma {:induction false} ChainedTelescopes(es: seq<Entry>, balance: int)
    requires Chained(es, balance)
    ensures balance == SumAmounts(es)
  {
    if es != [] {
      ChainedTelescopes(es[..|es| - 1], es[|es| - 1].previousBalance);
    }
  }

  /** The amounts of linked rows sum to the distance their balances cover. */
  lemma {:induction false} LinkedSum(rows: seq<Entry>, n: nat)
    requires 0 < n <= |rows|
    requires forall i :: 0 <= i < n ==> Linked(rows, i)
    requires forall i :: 0 <= i < n ==> rows[i].currentBalance == rows[i].previousBalance + rows[i].amount
    ensures rows[n - 1].currentBalance == rows[0].previousBalance + SumAmounts(rows[..n])
    ensures rows[n - 1].version == n
  {
    assert Linked(rows, n - 1);
    assert rows[..n][..n - 1] == rows[..n - 1];
    if n == 1 {
      assert rows[..0] == [];
    } else {
      LinkedSum(rows, n - 1);
    }
  }

  /**
   On rows from anywhere, tampered or not: a valid verdict, a zero start and
   entries that each add up force the last balance to be the sum of all amounts.
  */
  lemma ValidChainTelescopes(rows: seq<Entry>)
    requires rows != [] && BreaksOf(rows) == []
    requires rows[0].previousBalance == 0
    requires forall i :: 0 <= i < |rows| ==> rows[i].currentBalance == rows[i].previousBalance + rows[i].amount
    ensures rows[|rows| - 1].currentBalance == SumAmounts(rows)
    ensures rows[|rows| - 1].version == |rows|
  {
    hide BreaksBefore, Linked;
    NoBreaksMeansLinked(rows, |rows|);
    LinkedSum(rows, |rows|);
    assert rows[..|rows|] == rows;
  }
}
