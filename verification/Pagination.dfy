/** Cursor pagination over an account's transfers while other transfers are being inserted. */
module Pagination {
  import opened Wrappers
  import opened Domain

  predicate Mentions(t: Transfer, account: Id) {
    t.from == account || t.to == account
  }

  ghost predicate KeyedById(rows: set<Transfer>) {
    forall s, t :: s in rows && t in rows && s.id == t.id ==> s == t
  }

  /** The rows the query selects: of the account, and before the cursor if there is one. */
  function Selected(rows: set<Transfer>, account: Id, cursor: Option<Id>): set<Transfer> {
    set t | t in rows && Mentions(t, account) && (cursor == None || t.id < cursor.value)
  }

  predicate Descending(page: seq<Transfer>) {
    forall i, j :: 0 <= i < j < |page| ==> page[i].id > page[j].id
  }

  /** ORDER BY id DESC LIMIT: the selected rows with the highest ids, highest first. */
  ghost predicate IsPage(page: seq<Transfer>, rows: set<Transfer>, account: Id, cursor: Option<Id>, limit: nat) {
    var selected := Selected(rows, account, cursor);
    && Descending(page)
    && (forall t :: t in page ==> t in selected)
    && |page| == (if |selected| < limit then |selected| else limit)
    && (forall t, u :: t in selected && t !in page && u in page ==> t.id < u.id)
  }

  /** The page size actually used. */
  function PageLimit(limit: int): (r: nat)
    ensures 1 <= limit <= 100 ==> r == limit
    ensures limit <= 0 ==> r == 20
    ensures limit > 100 ==> r == 100
  {
    var size := if limit <= 0 then 20 else limit;
    if size > 100 then 100 else size
  }

  /** The cursor for the next page: the last id of a full page, none otherwise. */
  function NextCursor(page: seq<Transfer>, limit: nat): Option<Id>
    requires limit > 0
  {
    if |page| == limit then Some(page[|page| - 1].id) else None
  }

  lemma {:induction false} PageAsSet(page: seq<Transfer>)
    requires Descending(page)
    ensures |set t | t in page| == |page|
  {
    if page != [] {
      var n := |page| - 1;
      PageAsSet(page[..n]);
      assert page == page[..n] + [page[n]];
      assert (set t | t in page) == (set t | t in page[..n]) + {page[n]};
    }
  }

  /** A page that is not full has every selected row. */
  lemma ShortPageIsAll(page: seq<Transfer>, rows: set<Transfer>, account: Id, cursor: Option<Id>, limit: nat)
    requires IsPage(page, rows, account, cursor, limit) && |page| < limit
    ensures forall t :: t in Selected(rows, account, cursor) ==> t in page
  {
    var selected, got := Selected(rows, account, cursor), set t | t in page;
    PageAsSet(page);
    assert got <= selected;
    if exists t :: t in selected && t !in got {
      var t :| t in selected && t !in got;
      Smaller(got, selected - {t});
    }
  }

  lemma Smaller(a: set<Transfer>, b: set<Transfer>)
    requires a <= b
    ensures |a| <= |b|
  {
    assert b == a + (b - a);
  }

  /** Tables at the successive reads only gain rows. */
  ghost predicate OnlyInserts(tables: nat -> set<Transfer>) {
    && (forall k: nat :: tables(k) <= tables(k + 1))
    && (forall k: nat :: KeyedById(tables(k)))
  }

  lemma {:induction false} Gains(tables: nat -> set<Transfer>, j: nat, k: nat)
    requires OnlyInserts(tables) && j <= k
    ensures tables(j) <= tables(k)
  {
    if j < k {
      Gains(tables, j, k - 1);
    }
  }

  /** Any way of answering the query. */
  ghost predicate AnswersQuery(fetch: (nat, Option<Id>) -> seq<Transfer>, tables: nat -> set<Transfer>, account: Id,
      limit: nat) {
    forall k: nat, cursor :: IsPage(fetch(k, cursor), tables(k), account, cursor, limit)
  }

  /** What the walk has returned once it has read n pages and reached the cursor. */
  ghost predicate WalkedTo(tables: nat -> set<Transfer>, account: Id, n: nat, result: seq<Transfer>,
      cursor: Option<Id>) {
    && Descending(result)
    && (forall t :: t in result ==> Mentions(t, account) && t in tables(n) && (cursor.Some? ==> t.id >= cursor.value))
    && (forall t :: t in tables(0) && Mentions(t, account) && (cursor.Some? ==> t.id >= cursor.value) ==> t in result)
    && (result != [] ==> result[0] in tables(0))
    && (cursor.Some? ==> result != [])
  }

  lemma Joined(result: seq<Transfer>, page: seq<Transfer>, cursor: Option<Id>)
    requires Descending(result) && Descending(page)
    requires cursor.None? ==> result == []
    requires cursor.Some? ==> forall t :: t in result ==> t.id >= cursor.value
    requires cursor.Some? ==> forall t :: t in page ==> t.id < cursor.value
    ensures Descending(result + page)
  {
    forall i, j | 0 <= i < j < |result + page|
      ensures (result + page)[i].id > (result + page)[j].id
    {
      if i < |result| <= j {
        assert result[i] in result && page[j - |result|] in page;
      }
    }
  }

  /** A full page covers everything selected down to its last id. */
  lemma FullPageCovers(page: seq<Transfer>, rows: set<Transfer>, account: Id, cursor: Option<Id>, limit: nat)
    requires IsPage(page, rows, account, cursor, limit) && |page| == limit > 0
    ensures forall t :: t in Selected(rows, account, cursor) && t.id >= page[limit - 1].id ==> t in page
    ensures forall t :: t in page ==> t.id >= page[limit - 1].id
  {
    assert page[limit - 1] in page;
  }

  /**
   Following the cursor from the start, one read of the table per page: the walk ends,
   returns ids strictly descending and so nothing twice, only transfers of the account,
   and every transfer of the account that was there when it began; inserts meanwhile
   never come before the newest transfer that was there at the start.
  */
  method Walk(account: Id, requested: int, fetch: (nat, Option<Id>) -> seq<Transfer>,
      ghost tables: nat -> set<Transfer>)
    returns (result: seq<Transfer>, pages: nat)
    requires OnlyInserts(tables) && AnswersQuery(fetch, tables, account, PageLimit(requested))
    ensures Descending(result)
    ensures forall t :: t in tables(0) && Mentions(t, account) ==> t in result
    ensures forall t :: t in result ==> Mentions(t, account) && t in tables(pages)
    ensures result != [] ==> result[0] in tables(0)
  {
    var limit := PageLimit(requested);
    var page := fetch(0, None);
    assert IsPage(page, tables(0), account, None, limit);
    result, pages := page, 0;
    var cursor := NextCursor(page, limit);
    FirstPage(page, tables, account, limit);
    while cursor.Some?
      invariant WalkedTo(tables, account, pages, result, cursor)
      decreases if cursor.Some? then cursor.value + 1 else 0
    {
      page := fetch(pages + 1, cursor);
      assert IsPage(page, tables(pages + 1), account, cursor, limit);
      NextPage(page, result, tables, account, pages, cursor.value, limit);
      result, pages := result + page, pages + 1;
      cursor := NextCursor(page, limit);
    }
  }

  lemma FirstPage(page: seq<Transfer>, tables: nat -> set<Transfer>, account: Id, limit: nat)
    requires limit > 0 && IsPage(page, tables(0), account, None, limit)
    ensures WalkedTo(tables, account, 0, page, NextCursor(page, limit))
  {
    if |page| == limit {
      FullPageCovers(page, tables(0), account, None, limit);
      assert page[limit - 1] in page;
    } else {
      ShortPageIsAll(page, tables(0), account, None, limit);
    }
    assert forall t :: t in tables(0) && Mentions(t, account) ==> t in Selected(tables(0), account, None);
    assert page != [] ==> page[0] in page;
  }

  lemma NextPage(page: seq<Transfer>, result: seq<Transfer>, tables: nat -> set<Transfer>, account: Id, n: nat,
      cursor: Id, limit: nat)
    requires limit > 0 && OnlyInserts(tables)
    requires WalkedTo(tables, account, n, result, Some(cursor))
    requires IsPage(page, tables(n + 1), account, Some(cursor), limit)
    ensures WalkedTo(tables, account, n + 1, result + page, NextCursor(page, limit))
    ensures NextCursor(page, limit).Some? ==> NextCursor(page, limit).value < cursor
  {
    var rows := tables(n + 1);
    Gains(tables, 0, n + 1);
    Joined(result, page, Some(cursor));
    assert (result + page)[0] == result[0];
    if |page| == limit {
      FullPageCovers(page, rows, account, Some(cursor), limit);
      assert page[limit - 1] in page;
    } else {
      ShortPageIsAll(page, rows, account, Some(cursor), limit);
    }
    forall t | t in tables(0) && Mentions(t, account) && (NextCursor(page, limit).Some? ==>
      t.id >= NextCursor(page, limit).value)
      ensures t in result + page
    {
      if t.id < cursor {
        assert t in Selected(rows, account, Some(cursor));
      }
    }
  }
}
