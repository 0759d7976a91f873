/**
 Reversal links that clients put into a batch. The unique reversal index makes
 inserts wait in the order of the batch, not in id order. A batch whose links are
 in id order never deadlocks with others like it; any other can.
*/
module ClientLinks {
  import opened Wrappers
  import opened Domain
  import opened Ledger
  import opened Projections
  import opened Invariants
  import opened TransferUseCase
  import opened Locality
  import opened Interleaving
  import opened DeadlockFreedom
  import opened Progress
  import opened Reversals

  /** Accepted now, whatever unused ids it is given; so its links name committed transfers. */
  ghost predicate Acceptable(l: Tables, c: Command, now: Time) {
    forall base: Id :: Fresh(l, base, Need(c)) ==> Apply(l, c, base, now).Success?
  }

  /** Somebody is unfinished and nobody can go on. */
  ghost predicate Stuck(w: World) {
    && (exists i :: 0 <= i < |w.txs| && w.txs[i].phase != Done)
    && forall i: nat :: !CanGoOn(w, i)
  }

  /** The actions begin nothing but c and commands whose links are in order. */
  ghost predicate BeginsOnly(more: seq<Action>, c: Command) {
    forall k :: 0 <= k < |more| ==> BeginsOrdered(more[k]) || more[k] == Begin(c)
  }

  // ------------------------------------------------------- quiet worlds

  /** Aborting the open transactions leaves the tables alone. */
  lemma {:induction false} AbortAll(w: World, n: nat) returns (aborts: seq<Action>)
    requires n <= |w.txs|
    ensures forall k :: 0 <= k < |aborts| ==> aborts[k].Abort?
    ensures var w' := PerformAll(w, aborts);
      && w' == w.(txs := w'.txs) && |w'.txs| == |w.txs|
      && forall i :: 0 <= i < n ==> w'.txs[i].phase == Done && w'.txs[i].held == {}
  {
    if n == 0 {
      aborts := [];
    } else {
      var fewer := AbortAll(w, n - 1);
      aborts := fewer + [Abort(n - 1)];
      assert aborts[..|fewer|] == fewer;
    }
  }

  // --------------------------------------------- batches of two transfers

  function Pair(from: Id, to: Id, x: Option<Id>, y: Option<Id>): seq<TransferInput> {
    [TransferInput(from, to, 1, x), TransferInput(from, to, 1, y)]
  }

  /** Two accounts of one currency with no limits. */
  predicate OpenHanded(l: Tables, a: Id, b: Id) {
    && a in l.accounts && b in l.accounts && a != b
    && Unlimited(l.accounts[a]) && Unlimited(l.accounts[b])
    && l.accounts[a].currency == l.accounts[b].currency
  }

  predicate Unlimited(a: Account) {
    a.allowNegative && a.allowPositive && a.encumbered >= 0
  }

  predicate LinkOpen(l: Tables, link: Option<Id>) {
    link.Some? ==> HasTransfer(l.transfers, link.value) && !HasReversal(l.transfers, link.value)
  }

  lemma OpenHandedPosts(l: Tables, input: TransferInput, base: Id, now: Time)
    requires OpenHanded(l, input.from, input.to) && input.amount > 0 && LinkOpen(l, input.reversed)
    ensures PostTransfer(l, input, base, now).Success?
    ensures var l' := PostTransfer(l, input, base, now).value;
      && OpenHanded(l', input.from, input.to)
      && l'.transfers == l.transfers + [Transfer(base, input.from, input.to, input.amount, now, input.reversed)]
  {
    var t := Transfer(base, input.from, input.to, input.amount, now, input.reversed);
    assert Move(l, t, 0, now).Success?;
    MoveShape(l, t, 0, now);
  }

  lemma PairChecks(from: Id, to: Id, x: Option<Id>, y: Option<Id>)
    requires from != to
    ensures CheckInputs(Pair(from, to, x, y)).Pass?
  {
    var inputs := Pair(from, to, x, y);
    assert inputs[..1][..0] == [];
    assert CheckInputs(inputs[..1]).Pass?;
  }

  /** Two transfers between unlimited accounts succeed when their links are open and different. */
  lemma PairPosts(l: Tables, from: Id, to: Id, x: Option<Id>, y: Option<Id>, base: Id, now: Time)
    requires OpenHanded(l, from, to) && LinkOpen(l, x) && LinkOpen(l, y) && (x.Some? ==> x != y)
    ensures CreateBatch(l, Pair(from, to, x, y), base, now).Success?
    ensures var l' := CreateBatch(l, Pair(from, to, x, y), base, now).value;
      && OpenHanded(l', from, to)
      && l'.transfers == l.transfers + [Transfer(base, from, to, 1, now, x), Transfer(base + 4, from, to, 1, now, y)]
  {
    var inputs := Pair(from, to, x, y);
    hide PostTransfer, OpenHanded;
    OpenHandedKnown(l, from, to);
    PairChecks(from, to, x, y);
    OpenHandedPosts(l, inputs[0], base, now);
    var l1 := PostTransfer(l, inputs[0], base, now).value;
    assert inputs[..1][..0] == [];
    assert PostAll(l, inputs[..1], base, now) == PostTransfer(l, inputs[0], base, now);
    if y.Some? {
      HasAppend(l.transfers, Transfer(base, from, to, 1, now, x), y.value);
    }
    OpenHandedPosts(l1, inputs[1], base + 4, now);
  }

  lemma OpenHandedKnown(l: Tables, a: Id, b: Id)
    requires OpenHanded(l, a, b)
    ensures a in l.accounts && b in l.accounts && a != b
  {
  }

  lemma PairAcceptable(l: Tables, from: Id, to: Id, x: Option<Id>, y: Option<Id>, now: Time)
    requires OpenHanded(l, from, to) && LinkOpen(l, x) && LinkOpen(l, y) && (x.Some? ==> x != y)
    ensures Acceptable(l, Batch(Pair(from, to, x, y)), now)
  {
    hide CreateBatch;
    forall base: Id
      ensures Apply(l, Batch(Pair(from, to, x, y)), base, now).Success?
    {
      PairPosts(l, from, to, x, y, base, now);
    }
  }

  lemma PairEndpoints(from: Id, to: Id, x: Option<Id>, y: Option<Id>)
    requires from < to
    ensures Endpoints(Pair(from, to, x, y)) == [from, to]
  {
    var inputs := Pair(from, to, x, y);
    assert inputs[..1][..0] == [];
    assert Endpoints(inputs[..1]) == [from, to];
  }

  lemma SortedPair(from: Id, to: Id)
    requires from < to
    ensures NoDuplicates([from, to]) && SortIds([from, to]) == [from, to]
  {
    var ids, one := [from, to], [from];
    assert one[..0] == [] && SortIds(one) == InsertId([], from) == [from];
    assert ids[..1] == one && SortIds(ids) == InsertId([from], to);
    assert one[1..] == [] && InsertId([], to) == [to];
  }

  lemma PairKeys(from: Id, to: Id, first: Id, second: Id)
    requires first != second
    ensures Keys(Pair(from, to, Some(first), Some(second))) == [first, second]
  {
    var inputs := Pair(from, to, Some(first), Some(second));
    assert inputs[..1][..0] == [];
    assert Keys(inputs[..1]) == [first];
  }

  lemma PairPlan(from: Id, to: Id, first: Id, second: Id)
    requires from < to && first != second
    ensures FirstLocks(Batch(Pair(from, to, Some(first), Some(second)))) ==
      [AccountRow(from), AccountRow(to), ReversalKey(first), ReversalKey(second)]
  {
    hide Endpoints, SortIds, Keys, CheckInputs, Pair;
    PairEndpoints(from, to, Some(first), Some(second));
    SortedPair(from, to);
    PairKeys(from, to, first, second);
    PairChecks(from, to, Some(first), Some(second));
  }

  // ------------------------------------------------- what acceptance says

  /** A bound above every link of the batch. */
  function AboveLinks(inputs: seq<TransferInput>): (r: Id)
    ensures forall i :: 0 <= i < |inputs| && inputs[i].reversed.Some? ==> inputs[i].reversed.value < r
  {
    if inputs == [] then 0
    else
      var n := |inputs| - 1;
      var rest := AboveLinks(inputs[..n]);
      assert forall i :: 0 <= i < n ==> inputs[..n][i] == inputs[i];
      if inputs[n].reversed.Some? && inputs[n].reversed.value >= rest then inputs[n].reversed.value + 1 else rest
  }

  /** A batch adds its transfers behind the others, under ids from its base on. */
  lemma {:induction false} PostAllTransfers(l: Tables, inputs: seq<TransferInput>, base: Id, now: Time)
    requires PostAll(l, inputs, base, now).Success?
    ensures var all := PostAll(l, inputs, base, now).value.transfers;
      l.transfers <= all && forall j :: |l.transfers| <= j < |all| ==> all[j].id >= base
  {
    hide PostTransfer;
    if inputs != [] {
      var n := |inputs| - 1;
      PostAllTransfers(l, inputs[..n], base, now);
      PostTransferTransfers(PostAll(l, inputs[..n], base, now).value, inputs[n], base + 4 * n, now);
    }
  }

  lemma PostedLinkOpen(l: Tables, input: TransferInput, base: Id, now: Time)
    requires PostTransfer(l, input, base, now).Success?
    requires input.reversed.Some? && input.reversed.value < base
    ensures LinkOpen(l, input.reversed)
  {
  }

  /** A successful batch whose ids are above its links found them all committed and not reversed. */
  lemma {:induction false} PostAllLinksOpen(l: Tables, inputs: seq<TransferInput>, base: Id, now: Time, i: nat)
    requires PostAll(l, inputs, base, now).Success?
    requires i < |inputs| && inputs[i].reversed.Some? && inputs[i].reversed.value < base
    ensures LinkOpen(l, inputs[i].reversed)
  {
    hide PostTransfer;
    var n := |inputs| - 1;
    var l1 := PostAll(l, inputs[..n], base, now).value;
    if i < n {
      PostAllLinksOpen(l, inputs[..n], base, now, i);
    } else {
      PostedLinkOpen(l1, inputs[n], base + 4 * n, now);
      PostAllTransfers(l, inputs[..n], base, now);
      HasConcat(l.transfers, l1.transfers[|l.transfers|..], inputs[n].reversed.value);
      assert l1.transfers == l.transfers + l1.transfers[|l.transfers|..];
    }
  }

  lemma AcceptableLinks(w: World, c: Command, key: Id)
    requires Past(w) && c.Batch? && Acceptable(w.db, c, w.clock)
    requires key in Keys(c.inputs)
    ensures LinkOpen(w.db, Some(key))
  {
    var above := AboveLinks(c.inputs);
    var base := if above < w.nextId then w.nextId else above;
    assert Fresh(w.db, base, Need(c));
    var i :| 0 <= i < |c.inputs| && c.inputs[i].reversed == Some(key);
    PostAllLinksOpen(w.db, c.inputs, base, w.clock, i);
  }

  lemma AcceptableKnown(w: World, c: Command)
    requires Past(w) && c.Batch? && Acceptable(w.db, c, w.clock)
    ensures CheckInputs(c.inputs).Pass? && AllKnown(w.db, c.inputs)
  {
    assert Fresh(w.db, w.nextId, Need(c));
  }

  /** Opening an account does not make a batch less acceptable. */
  lemma StillAcceptable(w: World, c: Command, currency: Currency)
    requires WorldInvariant(w) && c.Batch? && Acceptable(w.db, c, w.clock)
    ensures Acceptable(OpenAccount(w.db, currency, true, true, w.nextId), c, w.clock)
  {
    var l := OpenAccount(w.db, currency, true, true, w.nextId);
    ReachableHoldsKeyed(w.log);
    forall base: Id | Fresh(l, base, Need(c))
      ensures Apply(l, c, base, w.clock).Success?
    {
      forall id: Id | base <= id < base + Need(c)
        ensures Unused(w.db, id)
      {
        assert Unused(l, id);
      }
      assert Unused(w.db, w.nextId);
      hide Apply, Unused;
      ApplyLockstep(w.db, l, c, base, w.clock);
    }
  }

  // ---------------------------------------------------------- taking locks

  /** Transaction i of w' has the first n of the locks, and everything else is as in w. */
  ghost predicate HasTaken(w: World, w': World, i: nat, locks: seq<Lock>, n: nat)
    requires i < |w.txs| && n <= |locks|
  {
    && w' == w.(txs := w'.txs) && |w'.txs| == |w.txs| && w'.txs == w.txs[i := w'.txs[i]]
    && w'.txs[i].phase == Locking(locks[n..])
    && w'.txs[i].held == w.txs[i].held + AsSet(locks[..n])
    && w'.txs[i].command == w.txs[i].command
  }

  lemma AcquireOne(w: World, i: nat)
    requires CanAcquire(w, i) && !w.txs[i].phase.pending[0].HoldRow?
    ensures var w', tx, tx' := Perform(w, Acquire(i)), w.txs[i], Perform(w, Acquire(i)).txs[i];
      && w' == w.(txs := w.txs[i := tx'])
      && tx'.phase == Locking(tx.phase.pending[1..]) && tx'.held == tx.held + {tx.phase.pending[0]}
      && tx'.command == tx.command
  {
  }

  /** A transaction takes as many of its locks as nobody else holds. */
  lemma {:induction false} AcquireMany(w: World, i: nat, locks: seq<Lock>, n: nat)
    requires i < |w.txs| && w.txs[i].phase == Locking(locks) && n <= |locks|
    requires forall k :: 0 <= k < n ==> !locks[k].HoldRow? && Free(w, i, locks[k])
    ensures HasTaken(w, PerformAll(w, Repeat(Acquire(i), n)), i, locks, n)
  {
    var w' := PerformAll(w, Repeat(Acquire(i), n));
    if n == 0 {
      assert w.txs[i].held + AsSet(locks[..0]) == w.txs[i].held;
    } else {
      var m := n - 1;
      AcquireMany(w, i, locks, m);
      var w1 := PerformAll(w, Repeat(Acquire(i), m));
      assert Repeat(Acquire(i), n)[..m] == Repeat(Acquire(i), m);
      assert Free(w, i, locks[m]) && Free(w1, i, locks[m]);
      hide Perform;
      AcquireOne(w1, i);
      assert locks[m..][1..] == locks[n..];
      assert locks[..n] == locks[..m] + [locks[m]];
    }
  }

  // --------------------------------------------------------------- the race

  /** The partner: a batch of its own accounts with two links in order. */
  function Partner(a: Id, first: Id, second: Id): Command {
    Batch(Pair(a, a + 1, Some(first), Some(second)))
  }

  /** Both begin, as transactions p and p + 1, and the partner takes its accounts and first link. */
  function HeadStart(c: Command, d: Command, p: nat): seq<Action> {
    [Begin(c), Begin(d)] + Repeat(Acquire(p + 1), 3)
  }

  /** Two batches waiting for each other's reversal link at the end of the transaction list. */
  ghost predicate Deadlocked(w: World, c: Command, d: Command) {
    var n := |w.txs|;
    && n >= 2 && w.txs[n - 2].command == c && w.txs[n - 1].command == d
    && w.txs[n - 2].phase.Locking? && w.txs[n - 1].phase.Locking?
    && Stuck(w)
  }

  lemma NobodyGoesOn(w: World, x: Lock, y: Lock)
    requires |w.txs| >= 2
    requires var n := |w.txs|;
      && (forall i :: 0 <= i < n - 2 ==> w.txs[i].phase == Done)
      && w.txs[n - 2].phase.Locking? && w.txs[n - 2].phase.pending != [] && w.txs[n - 2].phase.pending[0] == x
      && w.txs[n - 1].phase.Locking? && w.txs[n - 1].phase.pending != [] && w.txs[n - 1].phase.pending[0] == y
      && x in w.txs[n - 1].held && y in w.txs[n - 2].held
    ensures Stuck(w)
  {
    var n := |w.txs|;
    assert w.txs[n - 1].phase != Done;
    forall i: nat
      ensures !CanGoOn(w, i)
    {
      assert i == n - 2 ==> !Free(w, i, x);
      assert i == n - 1 ==> !Free(w, i, y);
    }
  }

  lemma BothBegin(w: World, c: Command, d: Command)
    requires !c.Reverse? && !d.Reverse?
    ensures PerformAll(w, [Begin(c), Begin(d)]) == w.(txs := w.txs + [NewTx(c), NewTx(d)])
  {
    hide FirstLocks, Perform;
    var both := [Begin(c), Begin(d)];
    assert both[..1] == [Begin(c)];
    PerformOne(w, Begin(c));
    BeginPlain(w, c);
    BeginPlain(Perform(w, Begin(c)), d);
    assert w.txs + [NewTx(c)] + [NewTx(d)] == w.txs + [NewTx(c), NewTx(d)];
  }

  /** Quiet transactions, then one just begun, then the partner with its accounts and first link. */
  ghost predicate PartnerAhead(txs: seq<Tx>, c: Command, d: Command, plan: seq<Lock>, a: Id, first: Id, second: Id) {
    var p := |txs| - 2;
    && p >= 0
    && (forall q :: 0 <= q < p ==> txs[q].phase == Done && txs[q].held == {})
    && txs[p] == Tx(c, Locking(plan), {}, map[], map[])
    && txs[p + 1].command == d && txs[p + 1].phase == Locking([ReversalKey(second)])
    && txs[p + 1].held == {AccountRow(a), AccountRow(a + 1), ReversalKey(first)}
  }

  /** The three locks of the partner are free right after both have begun. */
  lemma PartnerFree(w: World, txs: seq<Tx>, c: Command, d: Command, locks: seq<Lock>)
    requires Quiet(w) && txs == w.txs + [NewTx(c), NewTx(d)]
    ensures forall k :: 0 <= k < |locks| ==> Free(w.(txs := txs), |w.txs| + 1, locks[k])
  {
    hide FirstLocks;
    var p := |w.txs|;
    forall k, q | 0 <= k < |locks| && 0 <= q < |txs| && q != p + 1
      ensures locks[k] !in txs[q].held
    {
      assert q < p ==> txs[q] == w.txs[q];
    }
  }

  lemma PartnerHolds(w: World, c: Command, d: Command, w': World, a: Id, first: Id, second: Id)
    requires Quiet(w)
    requires var locks := [AccountRow(a), AccountRow(a + 1), ReversalKey(first), ReversalKey(second)];
      HasTaken(w.(txs := w.txs + [NewTx(c), NewTx(d)]), w', |w.txs| + 1, locks, 3)
    ensures w' == w.(txs := w'.txs) && |w'.txs| == |w.txs| + 2
    ensures PartnerAhead(w'.txs, c, d, FirstLocks(c), a, first, second)
  {
    hide FirstLocks;
    var locks := [AccountRow(a), AccountRow(a + 1), ReversalKey(first), ReversalKey(second)];
    assert locks[..3] == [AccountRow(a), AccountRow(a + 1), ReversalKey(first)];
    assert locks[3..] == [ReversalKey(second)];
    var p, txs := |w.txs|, w.txs + [NewTx(c), NewTx(d)];
    assert txs[p] == NewTx(c) && txs[p + 1] == NewTx(d);
    assert forall q :: 0 <= q < p ==> w'.txs[q] == w.txs[q];
  }

  lemma PartnerPlan(a: Id, first: Id, second: Id)
    requires first != second
    ensures !Partner(a, first, second).Reverse?
    ensures NewTx(Partner(a, first, second)).phase ==
      Locking([AccountRow(a), AccountRow(a + 1), ReversalKey(first), ReversalKey(second)])
  {
    PairPlan(a, a + 1, first, second);
  }

  lemma HeadStarted(w: World, c: Command, d: Command)
    requires !c.Reverse? && !d.Reverse?
    ensures PerformAll(w, HeadStart(c, d, |w.txs|)) ==
      PerformAll(w.(txs := w.txs + [NewTx(c), NewTx(d)]), Repeat(Acquire(|w.txs| + 1), 3))
  {
    hide PerformAll, NewTx;
    BothBegin(w, c, d);
    PerformThen(w, [Begin(c), Begin(d)], Repeat(Acquire(|w.txs| + 1), 3));
  }

  lemma PartnerFirst(w: World, c: Command, a: Id, first: Id, second: Id)
    requires !c.Reverse? && Quiet(w) && first != second
    ensures var d := Partner(a, first, second);
      var w' := PerformAll(w, HeadStart(c, d, |w.txs|));
      && w' == w.(txs := w'.txs) && |w'.txs| == |w.txs| + 2
      && PartnerAhead(w'.txs, c, d, FirstLocks(c), a, first, second)
  {
    hide *;
    var d, p := Partner(a, first, second), |w.txs|;
    var locks := [AccountRow(a), AccountRow(a + 1), ReversalKey(first), ReversalKey(second)];
    PartnerPlan(a, first, second);
    HeadStarted(w, c, d);
    var begun := w.(txs := w.txs + [NewTx(c), NewTx(d)]);
    PartnerFree(w, begun.txs, c, d, locks);
    assert begun.txs[p + 1] == NewTx(d);
    AcquireMany(begun, p + 1, locks, 3);
    PartnerHolds(w, c, d, PerformAll(begun, Repeat(Acquire(p + 1), 3)), a, first, second);
  }

  /** A plan of account locks and links, all of them free up to the partner's first link. */
  lemma PlanFree(w: World, c: Command, d: Command, accounts: seq<Id>, keys: seq<Id>, a: Id, i: nat, j: nat)
    requires i < j < |keys| && NoDuplicates(keys) && a !in accounts && a + 1 !in accounts
    requires PartnerAhead(w.txs, c, d, AccountLocks(accounts) + KeyLocks(keys), a, keys[j], keys[i])
    ensures var plan := AccountLocks(accounts) + KeyLocks(keys);
      forall k :: 0 <= k < |accounts| + j ==> !plan[k].HoldRow? && Free(w, |w.txs| - 2, plan[k])
  {
    var plan := AccountLocks(accounts) + KeyLocks(keys);
    forall k | 0 <= k < |accounts| + j
      ensures !plan[k].HoldRow? && Free(w, |w.txs| - 2, plan[k])
    {
      assert k < |accounts| ==> accounts[k] in accounts;
    }
  }

  lemma BatchSecond(w: World, c: Command, d: Command, accounts: seq<Id>, keys: seq<Id>, a: Id, i: nat, j: nat)
    requires i < j < |keys| && NoDuplicates(keys) && a !in accounts && a + 1 !in accounts
    requires PartnerAhead(w.txs, c, d, AccountLocks(accounts) + KeyLocks(keys), a, keys[j], keys[i])
    ensures var w' := PerformAll(w, Repeat(Acquire(|w.txs| - 2), |accounts| + j));
      w' == w.(txs := w'.txs) && Deadlocked(w', c, d)
  {
    var p, taken, plan := |w.txs| - 2, |accounts| + j, AccountLocks(accounts) + KeyLocks(keys);
    PlanFree(w, c, d, accounts, keys, a, i, j);
    hide PerformAll, Stuck, Free;
    AcquireMany(w, p, plan, taken);
    var w' := PerformAll(w, Repeat(Acquire(p), taken));
    assert plan[taken..][0] == ReversalKey(keys[j]);
    assert plan[..taken][|accounts| + i] == ReversalKey(keys[i]);
    assert forall q :: 0 <= q < p ==> w'.txs[q] == w.txs[q];
    NobodyGoesOn(w', ReversalKey(keys[j]), ReversalKey(keys[i]));
  }

  /** The actions after which neither the batch nor its partner can go on. */
  function RaceActions(c: Command, d: Command, p: nat, taken: nat): seq<Action> {
    HeadStart(c, d, p) + Repeat(Acquire(p), taken)
  }

  lemma Race(w: World, c: Command, accounts: seq<Id>, keys: seq<Id>, a: Id, i: nat, j: nat)
    requires Quiet(w) && !c.Reverse? && FirstLocks(c) == AccountLocks(accounts) + KeyLocks(keys)
    requires i < j < |keys| && NoDuplicates(keys) && a !in accounts && a + 1 !in accounts
    ensures var d := Partner(a, keys[j], keys[i]);
      var w' := PerformAll(w, RaceActions(c, d, |w.txs|, |accounts| + j));
      w' == w.(txs := w'.txs) && Deadlocked(w', c, d)
  {
    hide Quiet, FirstLocks, Partner, HeadStart, PerformAll, PartnerAhead, Deadlocked, Repeat, AccountLocks, KeyLocks;
    var d := Partner(a, keys[j], keys[i]);
    PartnerFirst(w, c, a, keys[j], keys[i]);
    BatchSecond(PerformAll(w, HeadStart(c, d, |w.txs|)), c, d, accounts, keys, a, i, j);
    PerformThen(w, HeadStart(c, d, |w.txs|), Repeat(Acquire(|w.txs|), |accounts| + j));
  }

  // -------------------------------------------------------------- theorems

  lemma BeginsOnlyThen(first: seq<Action>, second: seq<Action>, c: Command)
    requires BeginsOnly(first, c) && BeginsOnly(second, c)
    ensures BeginsOnly(first + second, c)
  {
    hide BeginsOrdered;
  }

  /** A quiet world with two spare unlimited accounts, in which the batch is acceptable. */
  ghost predicate HasSpares(w: World, c: Command, a: Id) {
    && c.Batch? && WorldInvariant(w) && Quiet(w) && Acceptable(w.db, c, w.clock)
    && OpenHanded(w.db, a, a + 1)
    && !IsEndpoint(c.inputs, a) && !IsEndpoint(c.inputs, a + 1)
  }

  lemma NewIdsAreNoEndpoints(w: World, c: Command)
    requires WorldInvariant(w) && c.Batch? && Acceptable(w.db, c, w.clock)
    ensures !IsEndpoint(c.inputs, w.nextId) && !IsEndpoint(c.inputs, w.nextId + 1)
  {
    AcceptableKnown(w, c);
    assert Unused(w.db, w.nextId) && Unused(w.db, w.nextId + 1);
  }

  const OPEN_UNLIMITED := Open("USD", true, true)

  lemma SparesOpened(w: World, w1: World, w2: World)
    requires Past(w) && Committed(w, w1, OPEN_UNLIMITED) && Committed(w1, w2, OPEN_UNLIMITED)
    ensures OpenHanded(w2.db, w.nextId, w.nextId + 1)
    ensures w1.db == OpenAccount(w.db, "USD", true, true, w.nextId)
    ensures w2.db == OpenAccount(w1.db, "USD", true, true, w1.nextId)
    ensures w2.db.transfers == w.db.transfers && w2.nextId == w.nextId + 2 && w2.clock == w1.clock == w.clock
  {
  }

  /** One transaction after another opens two unlimited accounts. */
  lemma OpenTwo(w: World) returns (opens: seq<Action>)
    requires WorldInvariant(w) && Quiet(w)
    ensures forall c: Command :: BeginsOnly(opens, c)
    ensures var w2 := PerformAll(w, opens);
      && WorldInvariant(w2) && Quiet(w2) && OpenHanded(w2.db, w.nextId, w.nextId + 1)
      && w2.db.transfers == w.db.transfers && w2.nextId == w.nextId + 2 && w2.clock == w.clock
      && forall c: Command :: c.Batch? && Acceptable(w.db, c, w.clock) ==> Acceptable(w2.db, c, w2.clock)
  {
    assert Past(w);
    hide WorldInvariant, PerformAll, Quiet, Committed, OpenHanded, Acceptable, Apply, BeginsOnly;
    assert AsTransaction(w.db, OPEN_UNLIMITED) == OPEN_UNLIMITED;
    var n := CommitsAlone(w, OPEN_UNLIMITED);
    var first := Alone(OPEN_UNLIMITED, |w.txs|, n);
    var w1 := PerformAll(w, first);
    assert AsTransaction(w1.db, OPEN_UNLIMITED) == OPEN_UNLIMITED;
    var n' := CommitsAlone(w1, OPEN_UNLIMITED);
    var second := Alone(OPEN_UNLIMITED, |w1.txs|, n');
    opens := first + second;
    PerformThen(w, first, second);
    SparesOpened(w, w1, PerformAll(w1, second));
    forall c: Command
      ensures BeginsOnly(opens, c)
    {
      AloneBegins(OPEN_UNLIMITED, |w.txs|, n, c);
      AloneBegins(OPEN_UNLIMITED, |w1.txs|, n', c);
      BeginsOnlyThen(first, second, c);
    }
    forall c: Command | c.Batch? && Acceptable(w.db, c, w.clock)
      ensures Acceptable(PerformAll(w, opens).db, c, w.clock)
    {
      StillAcceptable(w, c, "USD");
      StillAcceptable(w1, c, "USD");
    }
  }

  lemma AloneBegins(d: Command, p: nat, n: nat, c: Command)
    requires OrderedKeys(d)
    ensures BeginsOnly(Alone(d, p, n), c)
  {
    hide OrderedKeys;
  }

  lemma SparesReady(w: World, c: Command, a: Id)
    requires c.Batch? && WorldInvariant(w) && Quiet(w) && Acceptable(w.db, c, w.clock) && OpenHanded(w.db, a, a + 1)
    requires !IsEndpoint(c.inputs, a) && !IsEndpoint(c.inputs, a + 1)
    ensures HasSpares(w, c, a)
  {
  }

  /** Where a batch's links are out of order. */
  lemma OutOfOrder(keys: seq<Id>) returns (i: nat, j: nat)
    requires !Ascending(keys) && NoDuplicates(keys)
    ensures i < j < |keys| && keys[j] < keys[i]
  {
    i, j :| 0 <= i < j < |keys| && keys[i] >= keys[j];
  }

  /** The locks of a checked batch: its accounts, then its links. */
  lemma BatchPlan(inputs: seq<TransferInput>)
    requires CheckInputs(inputs).Pass?
    ensures FirstLocks(Batch(inputs)) == AccountLocks(SortIds(Endpoints(inputs))) + KeyLocks(Keys(inputs))
    ensures forall id :: id in SortIds(Endpoints(inputs)) <==> IsEndpoint(inputs, id)
  {
  }

  lemma PartnerOrdered(a: Id, first: Id, second: Id)
    requires first < second
    ensures Partner(a, first, second).Batch? && OrderedKeys(Partner(a, first, second))
  {
    PairKeys(a, a + 1, first, second);
  }

  /** The partner takes up two of the batch's links, which are committed transfers not yet reversed. */
  lemma PartnerAcceptable(w: World, c: Command, a: Id, first: Id, second: Id)
    requires HasSpares(w, c, a)
    requires first in Keys(c.inputs) && second in Keys(c.inputs) && first != second
    ensures Acceptable(w.db, Partner(a, first, second), w.clock)
  {
    AcceptableLinks(w, c, first);
    AcceptableLinks(w, c, second);
    PairAcceptable(w.db, a, a + 1, Some(first), Some(second), w.clock);
  }

  lemma RaceBegins(c: Command, d: Command, p: nat, taken: nat)
    requires OrderedKeys(d)
    ensures BeginsOnly(RaceActions(c, d, p, taken), c)
  {
    hide OrderedKeys;
  }

  /** From a world with spares, a race that ends with the batch and its partner waiting for each other. */
  ghost predicate RaceLost(w: World, c: Command, d: Command, race: seq<Action>) {
    var w' := PerformAll(w, race);
    && w' == w.(txs := w'.txs) && Deadlocked(w', c, d)
    && BeginsOnly(race, c) && d.Batch? && OrderedKeys(d)
    && Acceptable(w.db, c, w.clock) && Acceptable(w.db, d, w.clock)
  }

  lemma SparePlan(w: World, c: Command, a: Id)
    requires HasSpares(w, c, a)
    ensures !c.Reverse? && c.Batch? && Quiet(w) && Acceptable(w.db, c, w.clock)
    ensures var accounts := SortIds(Endpoints(c.inputs));
      && FirstLocks(c) == AccountLocks(accounts) + KeyLocks(Keys(c.inputs))
      && a !in accounts && a + 1 !in accounts
  {
    AcceptableKnown(w, c);
    BatchPlan(c.inputs);
  }

  lemma RaceFromSpares(w: World, c: Command, a: Id) returns (d: Command, race: seq<Action>)
    requires HasSpares(w, c, a) && !OrderedKeys(c)
    ensures RaceLost(w, c, d, race)
  {
    hide HasSpares, Endpoints, SortIds, Keys, FirstLocks, AccountLocks, KeyLocks, RaceActions, Partner, PerformAll;
    hide Deadlocked, BeginsOnly, Acceptable, Quiet;
    SparePlan(w, c, a);
    var accounts, keys := SortIds(Endpoints(c.inputs)), Keys(c.inputs);
    var i, j := OutOfOrder(keys);
    hide OrderedKeys, Ascending;
    PartnerAcceptable(w, c, a, keys[j], keys[i]);
    d := Partner(a, keys[j], keys[i]);
    PartnerOrdered(a, keys[j], keys[i]);
    Race(w, c, accounts, keys, a, i, j);
    race := RaceActions(c, d, |w.txs|, |accounts| + j);
    RaceBegins(c, d, |w.txs|, |accounts| + j);
  }

  /**
   A batch that would be accepted now and whose links are out of order can deadlock:
   with a partner whose links are in order, on accounts of its own, each acceptable
   on the very tables on which neither can go on.
  */
  lemma UnorderedLinksDeadlock(actions: seq<Action>, c: Command) returns (d: Command, more: seq<Action>)
    requires c.Batch? && !OrderedKeys(c)
    requires Acceptable(Interleaved(actions).db, c, Interleaved(actions).clock)
    ensures OrderedKeys(d) && d.Batch? && BeginsOnly(more, c)
    ensures var w := Interleaved(actions + more);
      Deadlocked(w, c, d) && Acceptable(w.db, c, w.clock) && Acceptable(w.db, d, w.clock)
  {
    hide Interleaved, Perform, PerformAll, WorldInvariant, Acceptable, Deadlocked, HasSpares, OrderedKeys;
    var w := Interleaved(actions);
    InterleavingInvariant(actions);
    var aborts := AbortAll(w, |w.txs|);
    PerformAllKeeps(w, aborts);
    var w0 := PerformAll(w, aborts);
    NewIdsAreNoEndpoints(w0, c);
    var openings := OpenTwo(w0);
    var w2 := PerformAll(w0, openings);
    SparesReady(w2, c, w0.nextId);
    var race;
    d, race := RaceFromSpares(w2, c, w0.nextId);
    PerformThen(w, aborts, openings);
    PerformThen(w, aborts + openings, race);
    more := aborts + openings + race;
    InterleavedThen(actions, more);
    BeginsOnlyThen(aborts, openings, c);
    BeginsOnlyThen(aborts + openings, race, c);
  }

  /**
   The order of its links decides: an acceptable batch, joining transactions whose
   links are in order, can deadlock with such transactions exactly when its own
   links are not in order.
  */
  lemma LinkOrderDecides(actions: seq<Action>, c: Command)
    requires forall k :: 0 <= k < |actions| ==> BeginsOrdered(actions[k])
    requires c.Batch? && Acceptable(Interleaved(actions).db, c, Interleaved(actions).clock)
    ensures OrderedKeys(c) <==> forall more :: BeginsOnly(more, c) ==> !Stuck(Interleaved(actions + more))
  {
    if OrderedKeys(c) {
      forall more | BeginsOnly(more, c)
        ensures !Stuck(Interleaved(actions + more))
      {
        NeverStuck(actions, more, c);
      }
    } else {
      var d, more := UnorderedLinksDeadlock(actions, c);
    }
  }

  lemma NeverStuck(actions: seq<Action>, more: seq<Action>, c: Command)
    requires forall k :: 0 <= k < |actions| ==> BeginsOrdered(actions[k])
    requires OrderedKeys(c) && BeginsOnly(more, c)
    ensures !Stuck(Interleaved(actions + more))
  {
    hide Interleaved, OrderedKeys, CanGoOn;
    var w := Interleaved(actions + more);
    if Stuck(w) {
      var unfinished :| 0 <= unfinished < |w.txs| && w.txs[unfinished].phase != Done;
      var i := DeadlockFree(actions + more, unfinished);
    }
  }

  // ---------------------------------------------------- a run that gets there

  /** Two transfers that reverse nothing. */
  function PlainPair(a: Id, b: Id): Command {
    Batch(Pair(a, b, None, None))
  }

  ghost predicate TwoMoved(w: World, w': World, a: Id, b: Id) {
    && OpenHanded(w'.db, a, b)
    && w'.db.transfers == w.db.transfers +
         [Transfer(w.nextId, a, b, 1, w.clock, None), Transfer(w.nextId + 4, a, b, 1, w.clock, None)]
  }

  lemma PlainApplied(w: World, w': World, a: Id, b: Id)
    requires OpenHanded(w.db, a, b)
    ensures Apply(w.db, PlainPair(a, b), w.nextId, w.clock).Success?
    ensures Committed(w, w', PlainPair(a, b)) ==> TwoMoved(w, w', a, b)
  {
    PairPosts(w.db, a, b, None, None, w.nextId, w.clock);
    hide CreateBatch, OpenHanded, Pair;
  }

  lemma MoveAlone(w: World, a: Id, b: Id) returns (moves: seq<Action>)
    requires WorldInvariant(w) && Quiet(w) && OpenHanded(w.db, a, b)
    ensures var w' := PerformAll(w, moves);
      TwoMoved(w, w', a, b) && Quiet(w')
  {
    assert AsTransaction(w.db, PlainPair(a, b)) == PlainPair(a, b);
    hide WorldInvariant, PerformAll, OpenHanded, PlainPair, Quiet, TwoMoved, Committed, Apply;
    PlainApplied(w, w, a, b);
    var n := CommitsAlone(w, PlainPair(a, b));
    moves := Alone(PlainPair(a, b), |w.txs|, n);
    PlainApplied(w, PerformAll(w, moves), a, b);
  }

  /** Two accounts, and transfers 2 and 6 between them, neither reversed. */
  ghost predicate TwoToReverse(w: World) {
    && Quiet(w) && OpenHanded(w.db, 0, 1)
    && LinkOpen(w.db, Some(2)) && LinkOpen(w.db, Some(6))
  }

  lemma TwoMovedToReverse(w: World, w': World)
    requires Quiet(w') && TwoMoved(w, w', 0, 1) && w.nextId == 2 && w.db.transfers == []
    ensures TwoToReverse(w')
  {
    var transfers := w'.db.transfers;
    assert |transfers| == 2 && transfers[0].id == 2 && transfers[1].id == 6;
  }

  lemma ReachTwoToReverse() returns (actions: seq<Action>)
    ensures TwoToReverse(Interleaved(actions))
  {
    hide Perform, PerformAll, Interleaved, TwoToReverse, TwoMoved, WorldInvariant, OpenHanded, Quiet;
    StartIsQuiet();
    var opens := OpenTwo(START);
    var w := PerformAll(START, opens);
    var moves := MoveAlone(w, 0, 1);
    actions := opens + moves;
    PerformThen(START, opens, moves);
    TwoMovedToReverse(w, PerformAll(START, actions));
    InterleavedThen([], actions);
    assert [] + actions == actions;
  }

  lemma StartIsQuiet()
    ensures WorldInvariant(START) && Quiet(START) && Past(START) && Interleaved([]) == START
  {
    InterleavingInvariant([]);
  }

  /**
   It happens: open two accounts, make transfers 2 and 6 between them, and send a
   batch of two more that name 6 and then 2 as what they reverse.
  */
  lemma ClientLinksCanDeadlock() returns (actions: seq<Action>, c: Command, d: Command, more: seq<Action>)
    ensures c.Batch? && d.Batch? && OrderedKeys(d) && BeginsOnly(more, c)
    ensures var before, w := Interleaved(actions), Interleaved(actions + more);
      && Quiet(before) && Acceptable(before.db, c, before.clock)
      && Deadlocked(w, c, d) && Acceptable(w.db, c, w.clock) && Acceptable(w.db, d, w.clock)
  {
    hide Interleaved, Acceptable, Deadlocked, BeginsOnly, Pair, Keys, Quiet;
    actions := ReachTwoToReverse();
    c := Batch(Pair(0, 1, Some(6), Some(2)));
    PairKeys(0, 1, 6, 2);
    PairAcceptable(Interleaved(actions).db, 0, 1, Some(6), Some(2), Interleaved(actions).clock);
    d, more := UnorderedLinksDeadlock(actions, c);
  }
}
