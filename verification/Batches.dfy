/** A batch against its transfers run one at a time, each with its own clock reading. */
module Batches {
  import opened Wrappers
  import opened Domain
  import opened Ledger

  /** Each input as a transaction of its own, in order, stopping at the first refusal. */
  function OneByOne(l: Tables, inputs: seq<TransferInput>, base: Id, times: seq<Time>): Result<Tables, Error>
    requires |times| == |inputs|
  {
    if inputs == [] then Success(l)
    else
      var n := |inputs| - 1;
      var l1 :- OneByOne(l, inputs[..n], base, times[..n]);
      CreateBatch(l1, [inputs[n]], base + 4 * n, times[n])
  }

  /** The same rows, but for the times stamped on them. */
  ghost predicate SameButTimes(l: Tables, m: Tables) {
    && l.accountIds == m.accountIds && l.accounts == m.accounts && l.holdIds == m.holdIds && l.holds == m.holds
    && |l.transfers| == |m.transfers| && |l.entries| == |m.entries| && |l.outbox| == |m.outbox|
    && (forall i :: 0 <= i < |l.transfers| ==> l.transfers[i].(createdAt := 0) == m.transfers[i].(createdAt := 0))
    && (forall i :: 0 <= i < |l.entries| ==> l.entries[i].(createdAt := 0) == m.entries[i].(createdAt := 0))
    && (forall i :: 0 <= i < |l.outbox| ==> l.outbox[i].(createdAt := 0) == m.outbox[i].(createdAt := 0))
  }

  lemma SameQueries(l: Tables, m: Tables, id: Id)
    requires SameButTimes(l, m)
    ensures HasReversal(l.transfers, id) <==> HasReversal(m.transfers, id)
    ensures HasTransfer(l.transfers, id) <==> HasTransfer(m.transfers, id)
  {
    assert forall i :: 0 <= i < |l.transfers| ==>
      l.transfers[i].id == m.transfers[i].id && l.transfers[i].reversed == m.transfers[i].reversed by {
      forall i | 0 <= i < |l.transfers|
        ensures l.transfers[i].id == m.transfers[i].id && l.transfers[i].reversed == m.transfers[i].reversed
      {
        assert l.transfers[i].(createdAt := 0) == m.transfers[i].(createdAt := 0);
      }
    }
  }

  lemma {:induction false} SameSequences(o: seq<OutboxEvent>, p: seq<OutboxEvent>, aggregate: Aggregate)
    requires |o| == |p|
    requires forall i :: 0 <= i < |o| ==> o[i].(createdAt := 0) == p[i].(createdAt := 0)
    ensures MaxSequence(o, aggregate) == MaxSequence(p, aggregate)
  {
    if o != [] {
      var n := |o| - 1;
      SameSequences(o[..n], p[..n], aggregate);
      assert o[n].(createdAt := 0) == p[n].(createdAt := 0);
    }
  }

  ghost predicate SameOutcome(r: Result<Tables, Error>, s: Result<Tables, Error>) {
    match (r, s)
    case (Success(l), Success(m)) => SameButTimes(l, m)
    case (Failure(e), Failure(f)) => e == f
    case _ => false
  }

  lemma InsertSame(l: Tables, m: Tables, t: Transfer, u: Transfer)
    requires SameButTimes(l, m) && t.(createdAt := 0) == u.(createdAt := 0)
    ensures SameOutcome(InsertTransfer(l, t), InsertTransfer(m, u))
  {
    assert t.from == u.from && t.to == u.to && t.amount == u.amount && t.id == u.id && t.reversed == u.reversed;
    if t.reversed.Some? {
      SameQueries(l, m, t.reversed.value);
    }
    hide HasReversal, HasTransfer;
  }

  lemma PostEntrySame(l: Tables, m: Tables, id: Id, account: Id, transfer: Id, amount: int, release: int, now: Time,
      now': Time)
    requires SameButTimes(l, m) && account in l.accounts
    ensures account in m.accounts
    ensures SameOutcome(PostEntry(l, id, account, transfer, amount, release, now),
      PostEntry(m, id, account, transfer, amount, release, now'))
  {
  }

  /** A move once its transfer is inserted. */
  function PostTwo(l: Tables, t: Transfer, release: int, now: Time): Result<Tables, Error>
    requires t.from in l.accounts && t.to in l.accounts
  {
    var l1 :- PostEntry(l, t.id + 1, t.from, t.id, -t.amount, release, now);
    PostEntry(l1, t.id + 2, t.to, t.id, t.amount, 0, now)
  }

  lemma PostTwoSame(l: Tables, m: Tables, t: Transfer, u: Transfer, release: int, now: Time, now': Time)
    requires SameButTimes(l, m) && t.(createdAt := 0) == u.(createdAt := 0)
    requires t.from in l.accounts && t.to in l.accounts && u.from in m.accounts && u.to in m.accounts
    ensures SameOutcome(PostTwo(l, t, release, now), PostTwo(m, u, release, now'))
  {
    hide SameButTimes, PostEntry;
    assert u.from == t.from && u.to == t.to && u.amount == t.amount && u.id == t.id;
    var first := PostEntry(l, t.id + 1, t.from, t.id, -t.amount, release, now);
    var first' := PostEntry(m, t.id + 1, t.from, t.id, -t.amount, release, now');
    PostEntrySame(l, m, t.id + 1, t.from, t.id, -t.amount, release, now, now');
    PostKeepsKeys(l, t.id + 1, t.from, t.id, -t.amount, release, now);
    PostKeepsKeys(m, t.id + 1, t.from, t.id, -t.amount, release, now');
    if first.Success? {
      PostEntrySame(first.value, first'.value, t.id + 2, t.to, t.id, t.amount, 0, now, now');
    }
  }

  lemma MoveSame(l: Tables, m: Tables, t: Transfer, u: Transfer, release: int, now: Time, now': Time)
    requires SameButTimes(l, m) && t.(createdAt := 0) == u.(createdAt := 0)
    requires t.from in l.accounts && t.to in l.accounts && u.from in m.accounts && u.to in m.accounts
    ensures SameOutcome(Move(l, t, release, now), Move(m, u, release, now'))
  {
    hide SameButTimes, InsertTransfer, PostEntry;
    InsertSame(l, m, t, u);
    InsertKeepsAccounts(l, t);
    InsertKeepsAccounts(m, u);
    if InsertTransfer(l, t).Success? {
      PostTwoSame(InsertTransfer(l, t).value, InsertTransfer(m, u).value, t, u, release, now, now');
    }
  }

  lemma EmitSame(l: Tables, m: Tables, id: Id, aggregate: Aggregate, eventType: EventType, transfer: Option<Id>,
      now: Time, now': Time)
    requires SameButTimes(l, m)
    ensures SameButTimes(Emit(l, id, aggregate, eventType, transfer, now), Emit(m, id, aggregate, eventType, transfer,
      now'))
  {
    SameSequences(l.outbox, m.outbox, aggregate);
  }

  lemma PostTransferSame(l: Tables, m: Tables, input: TransferInput, base: Id, now: Time, now': Time)
    requires SameButTimes(l, m)
    ensures SameOutcome(PostTransfer(l, input, base, now), PostTransfer(m, input, base, now'))
  {
    hide SameButTimes, Move, Emit;
    var t := Transfer(base, input.from, input.to, input.amount, now, input.reversed);
    var u := Transfer(base, input.from, input.to, input.amount, now', input.reversed);
    SameAccounts(l, m);
    if input.from in l.accounts && input.to in l.accounts {
      MoveSame(l, m, t, u, 0, now, now');
      if Move(l, t, 0, now).Success? {
        EmitSame(Move(l, t, 0, now).value, Move(m, u, 0, now').value, base + 3, TransferAggregate(base),
          TransferEventType(t), Some(base), now, now');
      }
    }
  }

  lemma SameAccounts(l: Tables, m: Tables)
    requires SameButTimes(l, m)
    ensures l.accounts == m.accounts
  {
  }

  lemma PostTransferKeys(l: Tables, input: TransferInput, base: Id, now: Time)
    requires PostTransfer(l, input, base, now).Success?
    ensures input.from in l.accounts && input.to in l.accounts
    ensures PostTransfer(l, input, base, now).value.accounts.Keys == l.accounts.Keys
  {
  }

  /** A batch opens no account, and succeeds only between open ones. */
  lemma {:induction false} PostAllKeys(l: Tables, inputs: seq<TransferInput>, base: Id, now: Time)
    requires PostAll(l, inputs, base, now).Success?
    ensures PostAll(l, inputs, base, now).value.accounts.Keys == l.accounts.Keys
    ensures AllKnown(l, inputs)
  {
    hide PostTransfer;
    if inputs != [] {
      var n := |inputs| - 1;
      PostAllKeys(l, inputs[..n], base, now);
      PostTransferKeys(PostAll(l, inputs[..n], base, now).value, inputs[n], base + 4 * n, now);
      forall i | 0 <= i < |inputs|
        ensures inputs[i].from in l.accounts && inputs[i].to in l.accounts
      {
        assert i < n ==> inputs[..n][i] == inputs[i];
      }
    }
  }

  lemma SingleBatch(l: Tables, input: TransferInput, base: Id, now: Time)
    ensures CreateBatch(l, [input], base, now) ==
      if CheckInput(input).Fail? then Failure(CheckInput(input).error) else PostTransfer(l, input, base, now)
  {
    assert [input][..0] == [];
    assert CheckInputs([input]) == CheckInput(input);
    assert PostAll(l, [input], base, now) == PostTransfer(l, input, base, now);
    assert AllKnown(l, [input]) <==> [input][0].from in l.accounts && [input][0].to in l.accounts;
  }

  /**
   A batch succeeds exactly when its transfers succeed one at a time in order, and
   then both leave the same accounts, versions, transfers, entries and events, but
   for the times stamped on them. Between known accounts and with checked inputs both
   are refused with the same error.
  */
  lemma {:induction false} BatchIsOneByOne(l: Tables, inputs: seq<TransferInput>, base: Id, now: Time, times: seq<Time>)
    requires |times| == |inputs|
    ensures CreateBatch(l, inputs, base, now).Success? <==> OneByOne(l, inputs, base, times).Success?
    ensures CreateBatch(l, inputs, base, now).Success? ==>
      SameButTimes(CreateBatch(l, inputs, base, now).value, OneByOne(l, inputs, base, times).value)
    ensures CheckInputs(inputs).Pass? && AllKnown(l, inputs) && CreateBatch(l, inputs, base, now).Failure? ==>
      OneByOne(l, inputs, base, times) == Failure(CreateBatch(l, inputs, base, now).error)
  {
    hide SameButTimes, PostTransfer, CreateBatch;
    if inputs == [] {
      EmptyBatch(l, base, now);
    } else {
      var n := |inputs| - 1;
      var first, last := inputs[..n], inputs[n];
      BatchIsOneByOne(l, first, base, now, times[..n]);
      if CreateBatch(l, first, base, now).Success? {
        var b, o := CreateBatch(l, first, base, now).value, OneByOne(l, first, base, times[..n]).value;
        SingleBatch(o, last, base + 4 * n, times[n]);
        PostTransferSame(b, o, last, base + 4 * n, now, times[n]);
        BatchExtends(l, inputs, base, now);
      } else {
        BatchPrefixFails(l, inputs, base, now);
      }
    }
  }

  lemma EmptyBatch(l: Tables, base: Id, now: Time)
    ensures CreateBatch(l, [], base, now) == Success(l) && SameButTimes(l, l)
  {
  }

  lemma LastInput(l: Tables, inputs: seq<TransferInput>, base: Id, now: Time)
    requires inputs != []
    ensures var n := |inputs| - 1;
      && (CheckInputs(inputs).Pass? <==> CheckInputs(inputs[..n]).Pass? && CheckInput(inputs[n]).Pass?)
      && (AllKnown(l, inputs) <==>
            AllKnown(l, inputs[..n]) && inputs[n].from in l.accounts && inputs[n].to in l.accounts)
      && (PostAll(l, inputs[..n], base, now).Success? ==>
            PostTransfer(PostAll(l, inputs[..n], base, now).value, inputs[n], base + 4 * n, now) ==
            PostAll(l, inputs, base, now))
  {
    hide PostTransfer;
    var n := |inputs| - 1;
    assert inputs == inputs[..n] + [inputs[n]];
    assert forall i :: 0 <= i < n ==> inputs[..n][i] == inputs[i];
  }

  /** With a successful prefix, the batch's outcome is that of its last transfer, success for success. */
  lemma BatchExtends(l: Tables, inputs: seq<TransferInput>, base: Id, now: Time)
    requires inputs != []
    requires CreateBatch(l, inputs[..|inputs| - 1], base, now).Success?
    ensures var n := |inputs| - 1; var b := CreateBatch(l, inputs[..n], base, now).value;
      var r := PostTransfer(b, inputs[n], base + 4 * n, now);
      && (CreateBatch(l, inputs, base, now).Success? <==> CheckInput(inputs[n]).Pass? && r.Success?)
      && (CreateBatch(l, inputs, base, now).Success? ==> CreateBatch(l, inputs, base, now) == r)
      && (CheckInputs(inputs).Pass? && AllKnown(l, inputs) ==>
            CheckInput(inputs[n]).Pass? && CreateBatch(l, inputs, base, now) == r)
  {
    hide PostTransfer, PostAll, CheckInputs, AllKnown;
    var n := |inputs| - 1;
    LastInput(l, inputs, base, now);
    PostAllKeys(l, inputs[..n], base, now);
    var b := PostAll(l, inputs[..n], base, now).value;
    if PostTransfer(b, inputs[n], base + 4 * n, now).Success? {
      PostTransferKeys(b, inputs[n], base + 4 * n, now);
    }
  }

  lemma BatchPrefixFails(l: Tables, inputs: seq<TransferInput>, base: Id, now: Time)
    requires inputs != []
    requires CreateBatch(l, inputs[..|inputs| - 1], base, now).Failure?
    ensures CreateBatch(l, inputs, base, now).Failure?
    ensures CheckInputs(inputs).Pass? && AllKnown(l, inputs) ==>
      && CheckInputs(inputs[..|inputs| - 1]).Pass? && AllKnown(l, inputs[..|inputs| - 1])
      && CreateBatch(l, inputs, base, now) == Failure(CreateBatch(l, inputs[..|inputs| - 1], base, now).error)
  {
    hide PostTransfer, CheckInputs, AllKnown;
    LastInput(l, inputs, base, now);
    if PostAll(l, inputs[..|inputs| - 1], base, now).Failure? {
      FailsAlready(l, inputs, base, now);
    }
  }

  lemma FailsAlready(l: Tables, inputs: seq<TransferInput>, base: Id, now: Time)
    requires inputs != [] && PostAll(l, inputs[..|inputs| - 1], base, now).Failure?
    ensures PostAll(l, inputs, base, now) == PostAll(l, inputs[..|inputs| - 1], base, now)
  {
    hide PostTransfer;
  }
}
