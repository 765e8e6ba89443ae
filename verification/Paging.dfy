/**
 * Keyset pagination of `logs` and `events` (server/temporalrca_server/api.py): each request returns one
 * page after a cursor, and a client follows `next_cursor` until it is None.
 */
module Paging {
  import opened Contracts

  /** The order of the select, by timestamp and then by event id. */
  datatype Key = Key(timestamp: int, id: nat)

  datatype Row = Row(key: Key, body: string)

  /** `next` is `next_cursor`. */
  datatype Page = Page(items: seq<Row>, next: Option<Key>)

  predicate Less(a: Key, b: Key) {
    a.timestamp < b.timestamp || (a.timestamp == b.timestamp && a.id < b.id)
  }

  /** A table in the order of its primary key. */
  predicate Sorted(rows: seq<Row>) {
    forall i, j | 0 <= i < j < |rows| :: Less(rows[i].key, rows[j].key)
  }

  predicate Beyond(key: Key, cursor: Option<Key>) {
    cursor.None? || Less(cursor.value, key)
  }

  /** The rows of the WHERE clause; `filter` stands for its other conditions. */
  function After(table: seq<Row>, filter: Row -> bool, cursor: Option<Key>): seq<Row> {
    if table == [] then []
    else (if filter(table[0]) && Beyond(table[0].key, cursor) then [table[0]] else []) + After(table[1..], filter, cursor)
  }

  function Take(rows: seq<Row>, n: nat): seq<Row> {
    if |rows| <= n then rows else rows[..n]
  }

  /** One request: one row more than the limit is selected to know whether there is a next page. */
  function PageOf(table: seq<Row>, filter: Row -> bool, cursor: Option<Key>, limit: nat): Page
    requires limit > 0
  {
    var rows := Take(After(table, filter, cursor), limit + 1);
    var page := Take(rows, limit);
    Page(page, if |rows| > limit then Some(page[|page| - 1].key) else None)
  }

  // ----- One page -----

  lemma {:induction false} AfterIs(table: seq<Row>, filter: Row -> bool, cursor: Option<Key>)
    requires Sorted(table)
    ensures Sorted(After(table, filter, cursor))
    ensures forall r :: r in After(table, filter, cursor) <==> r in table && filter(r) && Beyond(r.key, cursor)
  {
    if table != [] {
      var rest := After(table[1..], filter, cursor);
      HeadIsLeast(table);
      AfterIs(table[1..], filter, cursor);
      PrependSorted(table[0], rest);
      hide Sorted, Less, Beyond;
    }
  }

  lemma HeadIsLeast(table: seq<Row>)
    requires Sorted(table) && table != []
    ensures Sorted(table[1..])
    ensures forall r | r in table[1..] :: Less(table[0].key, r.key)
    ensures forall r :: r in table <==> r == table[0] || r in table[1..]
  {
  }

  lemma PrependSorted(r: Row, rest: seq<Row>)
    requires Sorted(rest) && (forall q | q in rest :: Less(r.key, q.key))
    ensures Sorted([r] + rest)
    ensures forall q :: q in [r] + rest <==> q == r || q in rest
  {
  }

  /** The items are exactly the matching rows after the cursor and up to the next one, in order. */
  ghost predicate NextRows(page: Page, table: seq<Row>, filter: Row -> bool, cursor: Option<Key>) {
    && Sorted(page.items)
    && (forall r :: r in page.items <==> r in table && filter(r) && Beyond(r.key, cursor) && Upto(r.key, page.next))
    && (page.next.Some? ==> Beyond(page.next.value, cursor))
  }

  /** A page holds the next rows; and there is a next page only after a full one. */
  lemma PageIs(table: seq<Row>, filter: Row -> bool, cursor: Option<Key>, limit: nat)
    requires Sorted(table) && limit > 0
    ensures var page := PageOf(table, filter, cursor, limit);
            && NextRows(page, table, filter, cursor) && |page.items| <= limit
            && (page.next.Some? ==> |page.items| == limit)
  {
    var rows, page := After(table, filter, cursor), PageOf(table, filter, cursor, limit);
    AfterIs(table, filter, cursor);
    PageShape(table, filter, cursor, limit);
    hide After, PageOf, Beyond;
    if page.next.Some? {
      CutAt(rows, limit);
      assert rows[limit - 1] in rows;
    }
    hide Sorted, Upto;
  }

  /** The first n of a sorted list are those up to its n-th key. */
  lemma CutAt(rows: seq<Row>, n: nat)
    requires Sorted(rows) && 0 < n <= |rows|
    ensures Sorted(rows[..n])
    ensures forall r | r in rows :: r in rows[..n] <==> Upto(r.key, Some(rows[n - 1].key))
  {
  }

  predicate Upto(key: Key, next: Option<Key>) {
    next.None? || key == next.value || Less(key, next.value)
  }

  // ----- Following the cursor while the table changes -----

  function CursorBefore(pages: seq<Page>, i: nat): Option<Key>
    requires i <= |pages|
  {
    if i == 0 then None else pages[i - 1].next
  }

  /** The tables at the times of the requests; between two requests anything may be inserted or dropped. */
  ghost predicate Session(tables: seq<seq<Row>>, filter: Row -> bool, limit: nat, pages: seq<Page>)
    requires limit > 0
  {
    && |tables| == |pages| && |pages| > 0
    && (forall i | 0 <= i < |tables| :: Sorted(tables[i]) && pages[i] == PageOf(tables[i], filter, CursorBefore(pages, i), limit))
    && (forall i | 0 <= i < |pages| - 1 :: pages[i].next.Some?)
  }

  function Items(pages: seq<Page>): seq<Row> {
    if pages == [] then [] else Items(pages[..|pages| - 1]) + pages[|pages| - 1].items
  }

  ghost predicate InAll(r: Row, tables: seq<seq<Row>>, n: nat)
    requires n <= |tables|
  {
    forall i | 0 <= i < n :: r in tables[i]
  }

  ghost predicate InSome(r: Row, tables: seq<seq<Row>>, n: nat)
    requires n <= |tables|
  {
    exists i :: 0 <= i < n && r in tables[i]
  }

  /** After n requests the client has, in order, every matching row up to the cursor that was there each time. */
  ghost predicate Covered(items: seq<Row>, tables: seq<seq<Row>>, filter: Row -> bool, n: nat, next: Option<Key>)
    requires n <= |tables|
  {
    && Sorted(items)
    && (forall r | r in items :: filter(r) && InSome(r, tables, n) && Upto(r.key, next))
    && (forall r | filter(r) && InAll(r, tables, n) && Upto(r.key, next) :: r in items)
  }

  lemma {:induction false} SessionCovers(tables: seq<seq<Row>>, filter: Row -> bool, limit: nat, pages: seq<Page>, n: nat)
    requires limit > 0 && Session(tables, filter, limit, pages) && 0 < n <= |pages|
    ensures Covered(Items(pages[..n]), tables, filter, n, pages[n - 1].next)
  {
    SessionAt(tables, filter, limit, pages, n);
    ItemsOne(pages, n);
    var before, page, cursor := Items(pages[..n - 1]), pages[n - 1], CursorBefore(pages, n - 1);
    hide PageOf, Session, Sorted, Covered, NextRows, Items;
    PageIs(tables[n - 1], filter, cursor, limit);
    if n > 1 {
      SessionCovers(tables, filter, limit, pages, n - 1);
    }
    CoverStep(before, page, tables, filter, n, cursor);
  }

  lemma ItemsOne(pages: seq<Page>, n: nat)
    requires 0 < n <= |pages|
    ensures Items(pages[..n]) == Items(pages[..n - 1]) + pages[n - 1].items
    ensures n == 1 ==> Items(pages[..n - 1]) == []
  {
    assert pages[..n][..n - 1] == pages[..n - 1];
  }

  lemma SessionAt(tables: seq<seq<Row>>, filter: Row -> bool, limit: nat, pages: seq<Page>, n: nat)
    requires limit > 0 && Session(tables, filter, limit, pages) && 0 < n <= |pages|
    ensures |tables| == |pages| && Sorted(tables[n - 1]) && pages[n - 1] == PageOf(tables[n - 1], filter, CursorBefore(pages, n - 1), limit)
    ensures CursorBefore(pages, n - 1).Some? <==> n > 1
  {
  }

  lemma CoverStep(before: seq<Row>, page: Page, tables: seq<seq<Row>>, filter: Row -> bool, n: nat, cursor: Option<Key>)
    requires 0 < n <= |tables|
    requires if cursor.None? then before == [] else Covered(before, tables, filter, n - 1, cursor)
    requires NextRows(page, tables[n - 1], filter, cursor)
    ensures Covered(before + page.items, tables, filter, n, page.next)
  {
  }

  /** By timestamp, and by event id within one timestamp. */
  predicate InTimeOrder(rows: seq<Row>) {
    forall i, j | 0 <= i < j < |rows| ::
      rows[i].key.timestamp <= rows[j].key.timestamp && (rows[i].key.timestamp == rows[j].key.timestamp ==> rows[i].key.id < rows[j].key.id)
  }

  lemma SortedByTime(rows: seq<Row>)
    ensures Sorted(rows) <==> InTimeOrder(rows)
  {
  }

  lemma {:induction false} SortedCount(rows: seq<Row>, r: Row)
    requires Sorted(rows)
    ensures multiset(rows)[r] == if r in rows then 1 else 0
  {
    if rows != [] {
      assert rows == [rows[0]] + rows[1..];
      SortedCount(rows[1..], r);
      assert rows[0] !in rows[1..] by {
        assert forall q | q in rows[1..] :: Less(rows[0].key, q.key);
      }
    }
  }

  /**
   * However the table changes between the requests: when the cursor ends, every matching row that was
   * there at all of them has been returned exactly once, and nothing was returned twice or out of order.
   */
  lemma SessionExactlyOnce(tables: seq<seq<Row>>, filter: Row -> bool, limit: nat, pages: seq<Page>, r: Row)
    requires limit > 0 && Session(tables, filter, limit, pages) && pages[|pages| - 1].next.None?
    ensures var items := Items(pages);
            && InTimeOrder(items)
            && (filter(r) && InAll(r, tables, |tables|) ==> multiset(items)[r] == 1)
            && multiset(items)[r] <= 1
            && (r in items ==> filter(r) && InSome(r, tables, |tables|))
  {
    SessionCovers(tables, filter, limit, pages, |pages|);
    assert pages[..|pages|] == pages;
    hide Items, Session, Sorted, InSome, InAll, InTimeOrder;
    SortedCount(Items(pages), r);
    SortedByTime(Items(pages));
  }

  // ----- Following the cursor over a fixed table -----

  lemma {:induction false} SortedIsUnique(a: seq<Row>, b: seq<Row>)
    requires Sorted(a) && Sorted(b) && forall r :: r in a <==> r in b
    ensures a == b
  {
    assert |a| > 0 ==> a[0] in a;
    assert |b| > 0 ==> b[0] in b;
    if a != [] && b != [] {
      Heads(a, b);
      forall r
        ensures r in a[1..] <==> r in b[1..]
      {
        TailMember(a, r);
        TailMember(b, r);
      }
      SortedIsUnique(a[1..], b[1..]);
      assert a == [a[0]] + a[1..] && b == [b[0]] + b[1..];
    }
  }

  lemma Heads(a: seq<Row>, b: seq<Row>)
    requires Sorted(a) && Sorted(b) && a != [] && b != [] && forall r :: r in a <==> r in b
    ensures a[0] == b[0]
  {
    assert a[0] in b && b[0] in a;
  }

  lemma TailMember(a: seq<Row>, r: Row)
    requires Sorted(a) && a != []
    ensures r in a[1..] <==> r in a && r != a[0]
  {
  }

  /** The rows after the cursor of a full page are the rows that the page left. */
  lemma AfterNext(table: seq<Row>, filter: Row -> bool, cursor: Option<Key>, k: nat)
    requires Sorted(table) && k < |After(table, filter, cursor)|
    ensures var rows := After(table, filter, cursor);
            After(table, filter, Some(rows[k].key)) == rows[k + 1..]
  {
    var rows := After(table, filter, cursor);
    var rest := After(table, filter, Some(rows[k].key));
    AfterIs(table, filter, cursor);
    AfterIs(table, filter, Some(rows[k].key));
    forall r
      ensures r in rest <==> r in rows[k + 1..]
    {
      if r in rest {
        assert rows[k] in rows;
        assert Beyond(r.key, cursor);
        assert r in rows;
      }
    }
    hide After;
    SortedIsUnique(rest, rows[k + 1..]);
  }

  /** The client: ask until `next_cursor` is None. */
  function Follow(table: seq<Row>, filter: Row -> bool, cursor: Option<Key>, limit: nat): seq<Page>
    requires Sorted(table) && limit > 0
    decreases |After(table, filter, cursor)|
  {
    var page := PageOf(table, filter, cursor, limit);
    if page.next.None? then [page]
    else
      AfterNext(table, filter, cursor, limit - 1);
      [page] + Follow(table, filter, page.next, limit)
  }

  function Requests(rows: nat, limit: nat): nat
    requires limit > 0
  {
    if rows <= limit then 1 else 1 + Requests(rows - limit, limit)
  }

  lemma {:induction false} ItemsJoin(page: Page, pages: seq<Page>)
    ensures Items([page] + pages) == page.items + Items(pages)
  {
    var all := [page] + pages;
    if pages == [] {
      assert all == [page] && all[..0] == [];
      assert Items(all[..0]) == [];
    } else {
      var n := |pages| - 1;
      ItemsJoin(page, pages[..n]);
      assert all[..n + 1] == [page] + pages[..n];
      assert Items(all) == Items(all[..n + 1]) + pages[n].items;
    }
  }

  /** The pages cut the rows every `limit` rows, and only the last one ends the cursor. */
  predicate Cuts(pages: seq<Page>, rows: seq<Row>, limit: nat)
    requires limit > 0
  {
    && Items(pages) == rows && |pages| == Requests(|rows|, limit)
    && pages != [] && pages[|pages| - 1].next.None?
    && (forall i | 0 <= i < |pages| - 1 :: pages[i].next.Some? && |pages[i].items| == limit)
  }

  lemma CutsMore(page: Page, rest: seq<Page>, rows: seq<Row>, limit: nat)
    requires 0 < limit < |rows| && Cuts(rest, rows[limit..], limit)
    requires page.items == rows[..limit] && page.next.Some?
    ensures Cuts([page] + rest, rows, limit)
  {
    ItemsJoin(page, rest);
    assert rows == rows[..limit] + rows[limit..];
    hide Items;
    var pages := [page] + rest;
    assert pages[|pages| - 1] == rest[|rest| - 1];
    assert forall i | 0 < i < |pages| :: pages[i] == rest[i - 1];
    assert Requests(|rows|, limit) == 1 + Requests(|rows| - limit, limit);
  }

  lemma CutsLast(rows: seq<Row>, limit: nat)
    requires 0 < limit && |rows| <= limit
    ensures Cuts([Page(rows, None)], rows, limit)
  {
  }

  /** Over a fixed table following the cursor ends, and returns the sorted, filtered table. */
  lemma {:induction false} FollowIsTable(table: seq<Row>, filter: Row -> bool, cursor: Option<Key>, limit: nat)
    requires Sorted(table) && limit > 0
    ensures Cuts(Follow(table, filter, cursor, limit), After(table, filter, cursor), limit)
    decreases |After(table, filter, cursor)|
  {
    var rows, page := After(table, filter, cursor), PageOf(table, filter, cursor, limit);
    PageShape(table, filter, cursor, limit);
    hide Cuts, After, PageOf, Sorted;
    if page.next.None? {
      CutsLast(rows, limit);
    } else {
      AfterNext(table, filter, cursor, limit - 1);
      FollowIsTable(table, filter, page.next, limit);
      CutsMore(page, Follow(table, filter, page.next, limit), rows, limit);
    }
  }

  lemma {:induction false} RequestsAre(rows: nat, limit: nat)
    requires limit > 0
    ensures var n := Requests(rows, limit); n >= 1 && rows <= n * limit && (n > 1 ==> (n - 1) * limit < rows)
  {
    if rows > limit {
      RequestsAre(rows - limit, limit);
      var m := Requests(rows - limit, limit);
      assert (m + 1) * limit == m * limit + limit && (m - 1) * limit + limit == m * limit;
    }
  }

  /**
   * A client that follows the cursor over a table that does not change gets each matching row once, by
   * timestamp and event id, in the least number of requests.
   */
  lemma FollowReturnsAll(table: seq<Row>, filter: Row -> bool, limit: nat)
    requires InTimeOrder(table) && limit > 0
    ensures Sorted(table)
    ensures var pages := Follow(table, filter, None, limit);
            var items := Items(pages);
            && InTimeOrder(items) && (forall r :: r in items <==> r in table && filter(r))
            && |items| <= |pages| * limit && (|pages| > 1 ==> (|pages| - 1) * limit < |items|)
  {
    SortedByTime(table);
    AfterIs(table, filter, None);
    FollowIsTable(table, filter, None, limit);
    SortedByTime(After(table, filter, None));
    RequestsAre(|After(table, filter, None)|, limit);
    hide Follow, After, Sorted, InTimeOrder, Items;
  }

  lemma PageShape(table: seq<Row>, filter: Row -> bool, cursor: Option<Key>, limit: nat)
    requires limit > 0
    ensures var rows, page := After(table, filter, cursor), PageOf(table, filter, cursor, limit);
            if |rows| <= limit then page == Page(rows, None) else page == Page(rows[..limit], Some(rows[limit - 1].key))
  {
  }
}
