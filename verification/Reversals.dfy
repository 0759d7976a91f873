/** Reversal links over whole runs. */
module Reversals {
  import opened Wrappers
  import opened Domain
  import opened Ledger
  import opened Projections
  import opened Invariants
  import opened Reachability
  import opened Locality
  import opened Interleaving

  /** No client sets the reversal link itself; only ReverseTransfer does. */
  predicate LinksOnlyByReverse(steps: seq<Step>) {
    forall i :: 0 <= i < |steps| ==> SetsNoLink(steps[i].command)
  }

  predicate SetsNoLink(c: Command) {
    c.Batch? ==> forall k :: 0 <= k < |c.inputs| ==> c.inputs[k].reversed == None
  }

  /** Transfer j undoes transfer i. */
  predicate Undoes(transfers: seq<Transfer>, j: nat, i: nat)
    requires i < |transfers| && j < |transfers|
  {
    && transfers[j].reversed == Some(transfers[i].id)
    && transfers[j].from == transfers[i].to && transfers[j].to == transfers[i].from
    && transfers[j].amount == transfers[i].amount
  }

  /** Every reversal undoes an earlier transfer. */
  ghost predicate LinksSound(transfers: seq<Transfer>) {
    forall j :: 0 <= j < |transfers| && transfers[j].reversed.Some? ==>
      exists i :: 0 <= i < j && Undoes(transfers, j, i)
  }

  lemma LinksAppend(transfers: seq<Transfer>, t: Transfer)
    requires LinksSound(transfers)
    requires t.reversed.Some? ==> exists i :: 0 <= i < |transfers| && Undoes(transfers + [t], |transfers|, i)
    ensures LinksSound(transfers + [t])
  {
    var all := transfers + [t];
    forall j | 0 <= j < |all| && all[j].reversed.Some?
      ensures exists i :: 0 <= i < j && Undoes(all, j, i)
    {
      if j < |transfers| {
        var i :| 0 <= i < j && Undoes(transfers, j, i);
        assert Undoes(all, j, i);
      }
    }
  }

  lemma PostTransferTransfers(l: Tables, input: TransferInput, base: Id, now: Time)
    requires PostTransfer(l, input, base, now).Success?
    ensures PostTransfer(l, input, base, now).value.transfers ==
      l.transfers + [Transfer(base, input.from, input.to, input.amount, now, input.reversed)]
  {
    MoveShape(l, Transfer(base, input.from, input.to, input.amount, now, input.reversed), 0, now);
  }

  lemma {:induction false} PlainBatchLinks(l: Tables, inputs: seq<TransferInput>, base: Id, now: Time)
    requires LinksSound(l.transfers)
    requires forall k :: 0 <= k < |inputs| ==> inputs[k].reversed == None
    requires PostAll(l, inputs, base, now).Success?
    ensures LinksSound(PostAll(l, inputs, base, now).value.transfers)
  {
    hide PostTransfer, LinksSound;
    if inputs != [] {
      var n := |inputs| - 1;
      PlainBatchLinks(l, inputs[..n], base, now);
      var l1 := PostAll(l, inputs[..n], base, now).value;
      PostTransferTransfers(l1, inputs[n], base + 4 * n, now);
      LinksAppend(l1.transfers, Transfer(base + 4 * n, inputs[n].from, inputs[n].to, inputs[n].amount, now, None));
    }
  }

  /** A batch of one that undoes a transfer it finds in the table. */
  lemma ReversalLinks(l: Tables, i: nat, base: Id, now: Time)
    requires LinksSound(l.transfers) && i < |l.transfers|
    requires PostAll(l, [ReversalOf(l.transfers[i])], base, now).Success?
    ensures LinksSound(PostAll(l, [ReversalOf(l.transfers[i])], base, now).value.transfers)
  {
    hide LinksSound;
    var t := l.transfers[i];
    var input := ReversalOf(t);
    assert [input][..0] == [];
    assert PostAll(l, [input], base, now) == PostTransfer(l, input, base, now);
    PostTransferTransfers(l, input, base, now);
    var r := Transfer(base, t.to, t.from, t.amount, now, Some(t.id));
    assert Undoes(l.transfers + [r], |l.transfers|, i);
    LinksAppend(l.transfers, r);
  }

  /** The command sets no link, or is the batch that ReverseTransfer makes of a committed transfer. */
  ghost predicate SetsSoundLinks(transfers: seq<Transfer>, c: Command) {
    SetsNoLink(c) || (c.Batch? && exists i :: 0 <= i < |transfers| && c.inputs == [ReversalOf(transfers[i])])
  }

  lemma ApplyLinks(l: Tables, c: Command, base: Id, now: Time)
    requires LinksSound(l.transfers) && SetsSoundLinks(l.transfers, c)
    requires Apply(l, c, base, now).Success?
    ensures LinksSound(Apply(l, c, base, now).value.transfers)
  {
    hide LinksSound;
    match c
    case Batch(inputs) =>
      if SetsNoLink(c) {
        PlainBatchLinks(l, inputs, base, now);
      } else {
        var i :| 0 <= i < |l.transfers| && inputs == [ReversalOf(l.transfers[i])];
        ReversalLinks(l, i, base, now);
      }
    case Reverse(original) =>
      var t := FindTransfer(l.transfers, original).value;
      var i :| 0 <= i < |l.transfers| && l.transfers[i] == t;
      ReversalLinks(l, i, base, now);
    case Capture(hold, to) =>
      var h := l.holds[hold];
      var t := Transfer(base, h.account, to, h.amount, now, None);
      MoveShape(l, t, h.amount, now);
      LinksAppend(l.transfers, t);
    case Open(_, _, _) =>
    case PlaceHold(_, _) =>
    case Void(_) =>
  }

  lemma {:induction false} RunLinksSound(steps: seq<Step>)
    requires LinksOnlyByReverse(steps)
    ensures LinksSound(Run(steps).transfers)
  {
    hide LinksSound, Apply, SetsNoLink;
    if steps == [] {
      NoLinks();
    } else {
      var n := |steps| - 1;
      RunLinksSound(steps[..n]);
      var l, s := Run(steps[..n]), steps[n];
      if Apply(l, s.command, s.base, s.at).Success? {
        ApplyLinks(l, s.command, s.base, s.at);
      }
    }
  }

  lemma NoLinks()
    ensures LinksSound([])
  {
  }

  /** A path of positions in which each transfer is a reversal of the one before it. */
  ghost predicate ReversalPath(transfers: seq<Transfer>, path: seq<nat>) {
    && (forall k :: 0 <= k < |path| ==> path[k] < |transfers|)
    && (forall k :: 0 < k < |path| ==> Links(transfers, path, k))
  }

  ghost predicate Links(transfers: seq<Transfer>, path: seq<nat>, k: nat)
    requires 0 < k < |path| && forall i :: 0 <= i < |path| ==> path[i] < |transfers|
  {
    transfers[path[k]].reversed == Some(transfers[path[k - 1]].id)
  }

  function Effect(t: Transfer, account: Id): int {
    (if account == t.to then t.amount else 0) - (if account == t.from then t.amount else 0)
  }

  function NetEffect(transfers: seq<Transfer>, path: seq<nat>, account: Id): int
    requires forall k :: 0 <= k < |path| ==> path[k] < |transfers|
  {
    if path == [] then 0
    else NetEffect(transfers, path[..|path| - 1], account) + Effect(transfers[path[|path| - 1]], account)
  }

  /** In any run at all, even with links set by clients, a transfer has at most one reversal. */
  lemma AtMostOneReversal(steps: seq<Step>, i: nat, j: nat, original: Id)
    requires FreshRun(steps)
    requires i < |Run(steps).transfers| && j < |Run(steps).transfers|
    requires Run(steps).transfers[i].reversed == Some(original) == Run(steps).transfers[j].reversed
    ensures i == j
  {
    ReachableInvariant(steps);
  }

  lemma LinkedUndoes(transfers: seq<Transfer>, j: nat, i: nat)
    requires LinksSound(transfers) && NoDuplicates(TransferIds(transfers))
    requires i < |transfers| && j < |transfers| && transfers[j].reversed == Some(transfers[i].id)
    ensures i < j && Undoes(transfers, j, i)
  {
    var m :| 0 <= m < j && Undoes(transfers, j, m);
    assert TransferIds(transfers)[m] == TransferIds(transfers)[i];
  }

  lemma {:induction false} PathAlternates(transfers: seq<Transfer>, path: seq<nat>, account: Id)
    requires LinksSound(transfers) && NoDuplicates(TransferIds(transfers))
    requires path != [] && ReversalPath(transfers, path)
    ensures forall k :: 0 <= k < |path| - 1 ==> path[k] < path[|path| - 1]
    ensures Effect(transfers[path[|path| - 1]], account) ==
      (if |path| % 2 == 1 then Effect(transfers[path[0]], account) else -Effect(transfers[path[0]], account))
    ensures NetEffect(transfers, path, account) == (if |path| % 2 == 1 then Effect(transfers[path[0]], account) else 0)
  {
    hide LinksSound;
    var n := |path| - 1;
    if n == 0 {
      assert path[..0] == [];
    } else {
      var p := path[..n];
      assert forall k :: 0 < k < n ==> Links(transfers, p, k) == Links(transfers, path, k);
      PathAlternates(transfers, p, account);
      assert Links(transfers, path, n);
      LinkedUndoes(transfers, path[n], path[n - 1]);
    }
  }

  lemma {:induction false} PathForward(transfers: seq<Transfer>, path: seq<nat>)
    requires LinksSound(transfers) && NoDuplicates(TransferIds(transfers))
    requires ReversalPath(transfers, path)
    ensures forall i, j :: 0 <= i < j < |path| ==> path[i] < path[j]
  {
    hide LinksSound;
    if path != [] {
      var n := |path| - 1;
      assert forall k :: 0 < k < n ==> Links(transfers, path[..n], k) == Links(transfers, path, k);
      PathForward(transfers, path[..n]);
      PathAlternates(transfers, path, 0);
    }
  }

  /**
   Reversal links form simple paths that only lead forward in time, and a path of
   k transfers leaves every account where it was when k is even, and where the
   original put it when k is odd.
  */
  lemma ReversalChains(steps: seq<Step>, path: seq<nat>, account: Id)
    requires FreshRun(steps) && LinksOnlyByReverse(steps)
    requires path != [] && ReversalPath(Run(steps).transfers, path)
    ensures forall i, j :: 0 <= i < j < |path| ==> path[i] < path[j]
    ensures NetEffect(Run(steps).transfers, path, account) ==
      (if |path| % 2 == 1 then Effect(Run(steps).transfers[path[0]], account) else 0)
  {
    RunLinksSound(steps);
    ReachableInvariant(steps);
    PathAlternates(Run(steps).transfers, path, account);
    PathForward(Run(steps).transfers, path);
  }

  // ------------------------------------------------------ taking turns

  /**
   Every reversal undoes a committed transfer, and every open transaction sets such
   links only, though its original was found before the transaction began.
  */
  ghost predicate WorldLinks(w: World) {
    && LinksSound(w.db.transfers)
    && forall i :: 0 <= i < |w.txs| ==> SetsSoundLinks(w.db.transfers, w.txs[i].command)
  }

  lemma SoundLinksGrow(transfers: seq<Transfer>, more: seq<Transfer>, c: Command)
    requires SetsSoundLinks(transfers, c)
    ensures SetsSoundLinks(transfers + more, c)
  {
    if !SetsNoLink(c) {
      var i :| 0 <= i < |transfers| && c.inputs == [ReversalOf(transfers[i])];
      assert (transfers + more)[i] == transfers[i];
    }
  }

  lemma ResolvedLinks(db: Tables, c: Command)
    requires SetsNoLink(c) && Resolve(db, c).Some?
    ensures SetsSoundLinks(db.transfers, Resolve(db, c).value)
  {
    if c.Reverse? {
      var t := FindTransfer(db.transfers, c.original).value;
      var i :| 0 <= i < |db.transfers| && db.transfers[i] == t;
    }
  }

  lemma CommitLinks(w: World, i: nat)
    requires WorldInvariant(w) && WorldLinks(w) && CanCommit(w, i)
    ensures WorldLinks(CommitTx(w, i))
  {
    var tx := w.txs[i];
    var p := tx.phase;
    CommitIsApply(w, i);
    ApplyLinks(w.db, tx.command, p.base, p.at);
    hide WorldInvariant, LinksSound, SetsSoundLinks, Apply;
    var w' := CommitTx(w, i);
    forall j | 0 <= j < |w'.txs|
      ensures SetsSoundLinks(w'.db.transfers, w'.txs[j].command)
    {
      SoundLinksGrow(w.db.transfers, Appended(p.view.transfers, p.result.transfers), w.txs[j].command);
    }
  }

  lemma PerformLinks(w: World, action: Action)
    requires WorldInvariant(w) && WorldLinks(w)
    requires action.Begin? ==> SetsNoLink(action.command)
    ensures WorldLinks(Perform(w, action))
  {
    hide WorldInvariant, LinksSound, SetsSoundLinks, SetsNoLink;
    match action
    case Begin(c) =>
      if Resolve(w.db, c).Some? {
        ResolvedLinks(w.db, c);
      }
    case Commit(i) =>
      if CanCommit(w, i) {
        CommitLinks(w, i);
      }
    case Acquire(_) =>
    case Prepare(_) =>
    case Abort(_) =>
    case Tick(_) =>
  }

  ghost predicate ClientsSetNoLinks(actions: seq<Action>) {
    forall k :: 0 <= k < |actions| && actions[k].Begin? ==> SetsNoLink(actions[k].command)
  }

  lemma {:induction false} InterleavingLinks(actions: seq<Action>)
    requires ClientsSetNoLinks(actions)
    ensures WorldLinks(Interleaved(actions))
  {
    hide WorldLinks, WorldInvariant, Perform, SetsNoLink;
    if actions == [] {
      NoLinksYet();
    } else {
      var n := |actions| - 1;
      InterleavingLinks(actions[..n]);
      InterleavingInvariant(actions[..n]);
      PerformLinks(Interleaved(actions[..n]), actions[n]);
    }
  }

  lemma NoLinksYet()
    ensures WorldLinks(START)
  {
  }

  /**
   The same after any interleaving in which clients set no links: reversals, whose
   originals are read before their transactions begin, each undo a committed
   transfer, none is reversed twice, and paths of them lead forward and cancel.
  */
  lemma InterleavedReversalChains(actions: seq<Action>, path: seq<nat>, account: Id)
    requires ClientsSetNoLinks(actions)
    requires path != [] && ReversalPath(Interleaved(actions).db.transfers, path)
    ensures var transfers := Interleaved(actions).db.transfers;
      && LinksSound(transfers) && ReversedOnce(transfers)
      && (forall i, j :: 0 <= i < j < |path| ==> path[i] < path[j])
      && NetEffect(transfers, path, account) ==
         if |path| % 2 == 1 then Effect(transfers[path[0]], account) else 0
  {
    InterleavingLinks(actions);
    Serializable(actions);
    hide Interleaved, Run;
    PathAlternates(Interleaved(actions).db.transfers, path, account);
    PathForward(Interleaved(actions).db.transfers, path);
  }
}
