/**
 The agent listing: pages of filtered rows, each call scanning a bounded number
 of candidates and handing back a cursor.
 */
module Paging {
  import opened Model

  /** The listing key; text columns stand for their place in the database's collation. */
  datatype Cursor = Cursor(rank: int, section: int, sortOrder: int, updatedAt: int, id: int)

  /** The WHERE clause of the cursor: c sorts after a, newest update first among equals. */
  predicate Follows(c: Cursor, a: Cursor) {
    || c.rank > a.rank
    || (c.rank == a.rank &&
        (|| c.section > a.section
         || (c.section == a.section &&
             (|| c.sortOrder > a.sortOrder
              || (c.sortOrder == a.sortOrder &&
                  (c.updatedAt < a.updatedAt || (c.updatedAt == a.updatedAt && c.id > a.id)))))))
  }

  datatype Row = Row(cursor: Cursor, waiting: bool, ready: bool, matches: bool)

  /** A restricted caller, an agent without an operator or one listing agent tasks, is
      not shown unready or unmatched pickup work. */
  predicate Shown(row: Row, restricted: bool) {
    !(restricted && row.waiting && !(row.ready && row.matches))
  }

  ghost predicate Sorted(rows: seq<Row>) {
    forall i, j :: 0 <= i < j < |rows| ==> Follows(rows[j].cursor, rows[i].cursor)
  }

  /** The rows a query with this cursor ranges over. */
  function RowsAfter(rows: seq<Row>, after: Option<Cursor>): seq<Row> {
    if rows == [] then []
    else (if after.None? || Follows(rows[0].cursor, after.value) then [rows[0]] else []) + RowsAfter(rows[1..], after)
  }

  function Query(rows: seq<Row>, after: Option<Cursor>, limit: nat): seq<Row> {
    var all := RowsAfter(rows, after);
    if |all| <= limit then all else all[..limit]
  }

  /** The specification of a listing: the shown rows, in order. */
  function Visible(rows: seq<Row>, restricted: bool): seq<Row> {
    if rows == [] then []
    else (if Shown(rows[0], restricted) then [rows[0]] else []) + Visible(rows[1..], restricted)
  }

  lemma {:induction false} VisibleSplit(a: seq<Row>, b: seq<Row>, restricted: bool)
    ensures Visible(a + b, restricted) == Visible(a, restricted) + Visible(b, restricted)
  {
    if a == [] {
      assert a + b == b;
    } else {
      assert (a + b)[1..] == a[1..] + b;
      VisibleSplit(a[1..], b, restricted);
    }
  }

  lemma {:induction false} AllAfter(rows: seq<Row>, after: Option<Cursor>)
    requires forall i :: 0 <= i < |rows| ==> after.None? || Follows(rows[i].cursor, after.value)
    ensures RowsAfter(rows, after) == rows
  {
    if rows != [] { AllAfter(rows[1..], after); }
  }

  /** On a sorted board a cursor, even of a row that is gone, cuts off a suffix. */
  lemma {:induction false} AfterIsSuffix(rows: seq<Row>, after: Option<Cursor>)
    requires Sorted(rows)
    ensures |RowsAfter(rows, after)| <= |rows|
    ensures RowsAfter(rows, after) == rows[|rows| - |RowsAfter(rows, after)|..]
  {
    if rows != [] {
      AfterIsSuffix(rows[1..], after);
      if after.None? || Follows(rows[0].cursor, after.value) {
        AllAfter(rows, after);
      }
    }
  }

  /** The cursor of a row continues right behind that row. */
  lemma {:induction false} AfterRow(rows: seq<Row>, p: nat)
    requires Sorted(rows) && p < |rows|
    ensures RowsAfter(rows, Some(rows[p].cursor)) == rows[p + 1..]
  {
    if p == 0 {
      AllAfter(rows[1..], Some(rows[0].cursor));
    } else {
      AfterRow(rows[1..], p - 1);
    }
  }

  /** What is left of a listing at a cursor. */
  function Rest(rows: seq<Row>, next: Option<Cursor>, restricted: bool): seq<Row> {
    if next.None? then [] else Visible(RowsAfter(rows, next), restricted)
  }

  function PageLimit(requested: int): nat {
    if requested <= 0 || requested > 200 then 100 else requested
  }

  lemma VisibleStep(rows: seq<Row>, p: nat, q: nat, restricted: bool)
    requires p <= q < |rows|
    ensures Visible(rows[p..q + 1], restricted) ==
            Visible(rows[p..q], restricted) + if Shown(rows[q], restricted) then [rows[q]] else []
  {
    assert rows[p..q + 1] == rows[p..q] + [rows[q]];
    VisibleSplit(rows[p..q], [rows[q]], restricted);
  }

  /** One listing call.  Its page and the listing at its cursor make up the listing at the
      caller's cursor; the cursor moves on; it scans fewer than maxScan + limit rows; and only the
      scan limit or the end of the listing leaves a page short. */
  method ListPage(rows: seq<Row>, after: Option<Cursor>, requested: int, restricted: bool, maxScan: nat)
    returns (page: seq<Row>, next: Option<Cursor>, scanned: nat)
    requires Sorted(rows) && maxScan > 0
    ensures Visible(RowsAfter(rows, after), restricted) == page + Rest(rows, next, restricted)
    ensures next.Some? ==> |RowsAfter(rows, next)| < |RowsAfter(rows, after)|
    ensures |page| <= if 1 <= requested <= 200 then requested else 100
    ensures next.Some? && scanned < maxScan ==> |page| == if 1 <= requested <= 200 then requested else 100
    ensures scanned == |RowsAfter(rows, after)| - if next.None? then 0 else |RowsAfter(rows, next)|
    ensures scanned < maxScan + PageLimit(requested)
  {
    hide RowsAfter, Visible, Sorted, Follows, Shown;
    var limit := PageLimit(requested);
    ghost var p := |rows| - |RowsAfter(rows, after)|;
    AfterIsSuffix(rows, after);
    var cursor := after;
    page, scanned := [], 0;
    ghost var q := p;
    VisibleEmpty(rows, p, restricted);
    while true
      invariant 0 <= p <= q <= |rows| && q == p + scanned
      invariant RowsAfter(rows, cursor) == rows[q..] && (q > p ==> cursor.Some?)
      invariant page == Visible(rows[p..q], restricted) && |page| < limit
      invariant scanned < maxScan
      decreases |rows| - q
    {
      var items := Query(rows, cursor, limit);
      var index := 0;
      ghost var from := q;
      while index < |items|
        invariant 0 <= index <= |items| && q == from + index && q == p + scanned && scanned < maxScan + index
        invariant |items| == if |rows| - from <= limit then |rows| - from else limit
        invariant RowsAfter(rows, cursor) == rows[q..] && (q > p ==> cursor.Some?)
        invariant page == Visible(rows[p..q], restricted) && |page| < limit
        invariant forall i :: 0 <= i < |items| ==> items[i] == rows[from + i]
      {
        var item := items[index];
        cursor := Some(item.cursor);
        scanned := scanned + 1;
        AfterRow(rows, q);
        VisibleStep(rows, p, q, restricted);
        q := q + 1;
        if Shown(item, restricted) {
          page := page + [item];
          if |page| == limit {
            next := if index < |items| - 1 || |items| == limit then cursor else None;
            PageEnds(rows, p, q, next, restricted);
            return;
          }
        }
        index := index + 1;
      }
      if |items| < limit {
        next := None;
        PageEnds(rows, p, q, next, restricted);
        return;
      }
      if scanned >= maxScan {
        next := cursor;
        PageEnds(rows, p, q, next, restricted);
        return;
      }
    }
  }

  lemma VisibleEmpty(rows: seq<Row>, p: nat, restricted: bool)
    requires p <= |rows|
    ensures Visible(rows[p..p], restricted) == []
  {
  }

  lemma PageEnds(rows: seq<Row>, p: nat, q: nat, next: Option<Cursor>, restricted: bool)
    requires p <= q <= |rows|
    requires if next.None? then q == |rows| else RowsAfter(rows, next) == rows[q..]
    ensures Visible(rows[p..], restricted) == Visible(rows[p..q], restricted) + Rest(rows, next, restricted)
  {
    assert rows[p..] == rows[p..q] + rows[q..];
    VisibleSplit(rows[p..q], rows[q..], restricted);
  }

  /** The listing leaves out exactly the unready or unmatched pickup work of a restricted caller. */
  lemma ListingShows(rows: seq<Row>, restricted: bool)
    ensures forall row :: row in Visible(rows, restricted) <==>
                            row in rows && (restricted && row.waiting ==> row.ready && row.matches)
  {
    hide Visible;
    forall row { VisibleMeans(rows, restricted, row); }
  }

  /** Following the cursors ends, and the pages join up to the filtered listing: nothing lost, repeated or reordered. */
  method ListAll(rows: seq<Row>, requested: int, restricted: bool, maxScan: nat) returns (all: seq<Row>)
    requires Sorted(rows) && maxScan > 0
    ensures all == Visible(rows, restricted) && Sorted(all)
    ensures forall row :: row in all <==> row in rows && (restricted && row.waiting ==> row.ready && row.matches)
  {
    hide RowsAfter, Visible, Shown, Follows;
    ListingShows(rows, restricted);
    VisibleSorted(rows, restricted);
    AllAfter(rows, None);
    var page, next, _ := ListPage(rows, None, requested, restricted, maxScan);
    all := page;
    while next.Some?
      invariant Visible(rows, restricted) == all + Rest(rows, next, restricted)
      decreases if next.Some? then 1 + |RowsAfter(rows, next)| else 0
    {
      var page, following, _ := ListPage(rows, next, requested, restricted, maxScan);
      assert Visible(rows, restricted) == all + (page + Rest(rows, following, restricted));
      all, next := all + page, following;
    }
  }

  // ----- A board that changes between pages -----

  /** The row sorts after the cursor. */
  predicate Beyond(c: Cursor, after: Option<Cursor>) {
    after.None? || Follows(c, after.value)
  }

  lemma {:induction false} RowsAfterMeans(rows: seq<Row>, after: Option<Cursor>, row: Row)
    ensures row in RowsAfter(rows, after) <==> row in rows && Beyond(row.cursor, after)
  {
    hide Follows;
    if rows != [] {
      RowsAfterMeans(rows[1..], after, row);
      assert rows == [rows[0]] + rows[1..];
    }
  }

  lemma {:induction false} VisibleMeans(rows: seq<Row>, restricted: bool, row: Row)
    ensures row in Visible(rows, restricted) <==> row in rows && Shown(row, restricted)
  {
    hide Shown;
    if rows != [] {
      VisibleMeans(rows[1..], restricted, row);
      assert rows == [rows[0]] + rows[1..];
    }
  }

  lemma {:induction false} VisibleSorted(rows: seq<Row>, restricted: bool)
    requires Sorted(rows)
    ensures Sorted(Visible(rows, restricted))
  {
    hide Follows, Shown;
    if rows != [] {
      var rest := rows[1..];
      VisibleSorted(rest, restricted);
      forall row | row in Visible(rest, restricted) ensures Follows(row.cursor, rows[0].cursor) {
        VisibleMeans(rest, restricted, row);
        var i :| 0 <= i < |rest| && rest[i] == row;
        assert rows[i + 1] == row;
      }
    }
  }

  /** What a page holds, whatever its board: the shown rows beyond the caller's cursor and not beyond the new one,
      in order. */
  lemma PageMeans(rows: seq<Row>, after: Option<Cursor>, page: seq<Row>, next: Option<Cursor>, restricted: bool)
    requires Sorted(rows)
    requires Visible(RowsAfter(rows, after), restricted) == page + Rest(rows, next, restricted)
    ensures Sorted(page)
    ensures forall row :: row in page <==>
              && row in rows && Shown(row, restricted) && Beyond(row.cursor, after)
              && (next.Some? ==> !Beyond(row.cursor, next))
  {
    hide Shown, Follows;
    AfterIsSuffix(rows, after);
    var due, rest := RowsAfter(rows, after), Rest(rows, next, restricted);
    SuffixSorted(rows, |rows| - |due|);
    VisibleSorted(due, restricted);
    PrefixSorted(page, rest);
    forall row
      ensures row in page <==>
              && row in rows && Shown(row, restricted) && Beyond(row.cursor, after)
              && (next.Some? ==> !Beyond(row.cursor, next))
    {
      VisibleMeans(due, restricted, row);
      RowsAfterMeans(rows, after, row);
      VisibleMeans(RowsAfter(rows, next), restricted, row);
      RowsAfterMeans(rows, next, row);
      assert row in page + rest <==> row in page || row in rest;
      if row in page && row in rest { OnceInSorted(page, rest, row); }
    }
  }

  lemma SuffixSorted(rows: seq<Row>, n: nat)
    requires Sorted(rows) && n <= |rows|
    ensures Sorted(rows[n..])
  {
  }

  lemma PrefixSorted(a: seq<Row>, b: seq<Row>)
    requires Sorted(a + b)
    ensures Sorted(a)
  {
    forall i, j | 0 <= i < j < |a| ensures Follows(a[j].cursor, a[i].cursor) {
      assert (a + b)[i] == a[i] && (a + b)[j] == a[j];
    }
  }

  lemma OnceInSorted(a: seq<Row>, b: seq<Row>, row: Row)
    requires Sorted(a + b)
    ensures !(row in a && row in b)
  {
    if row in a && row in b {
      var i :| 0 <= i < |a| && a[i] == row;
      var j :| 0 <= j < |b| && b[j] == row;
      assert (a + b)[i] == (a + b)[|a| + j] == row;
      FollowsIsStrictTotalOrder(row.cursor, row.cursor);
    }
  }

  /** The new cursor lies beyond the caller's. */
  lemma CursorAdvances(rows: seq<Row>, after: Option<Cursor>, next: Option<Cursor>)
    requires Sorted(rows) && next.Some? && |RowsAfter(rows, next)| < |RowsAfter(rows, after)|
    ensures Beyond(next.value, after)
  {
    if !Beyond(next.value, after) { MoreAfterEarlier(rows, next, after); }
  }

  lemma {:induction false} MoreAfterEarlier(rows: seq<Row>, early: Option<Cursor>, late: Option<Cursor>)
    requires late.Some? && early.Some? && !Follows(early.value, late.value)
    ensures |RowsAfter(rows, late)| <= |RowsAfter(rows, early)|
  {
    if rows != [] { MoreAfterEarlier(rows[1..], early, late); }
  }

  /** Some row with this key is on the board and shown. */
  ghost predicate ShownAt(rows: seq<Row>, key: Cursor, restricted: bool) {
    exists row :: row in rows && row.cursor == key && Shown(row, restricted)
  }

  ghost predicate ShownOnAll(boards: seq<seq<Row>>, key: Cursor, restricted: bool) {
    forall k :: 0 <= k < |boards| ==> ShownAt(boards[k], key, restricted)
  }

  ghost predicate Lists(all: seq<Row>, key: Cursor) {
    exists i :: 0 <= i < |all| && all[i].cursor == key
  }

  /** Everything listed so far is in order and not beyond the cursor, and every key up to the cursor that every
      board so far showed is listed. */
  ghost predicate ListedTo(all: seq<Row>, boards: seq<seq<Row>>, next: Option<Cursor>, restricted: bool) {
    && Sorted(all)
    && (next.Some? ==> forall row :: row in all ==> !Beyond(row.cursor, next))
    && (forall key :: ShownOnAll(boards, key, restricted) && (next.Some? ==> !Beyond(key, next)) ==> Lists(all, key))
  }

  lemma ListedFurther(all: seq<Row>, boards: seq<seq<Row>>, after: Option<Cursor>, rows: seq<Row>, page: seq<Row>,
      next: Option<Cursor>, restricted: bool)
    requires boards != [] ==> after.Some? && ListedTo(all, boards, after, restricted)
    requires boards == [] ==> after.None? && all == []
    requires Sorted(rows) && Visible(RowsAfter(rows, after), restricted) == page + Rest(rows, next, restricted)
    requires next.Some? ==> |RowsAfter(rows, next)| < |RowsAfter(rows, after)|
    ensures ListedTo(all + page, boards + [rows], next, restricted)
  {
    hide Shown, Follows, RowsAfter, Visible, Lists;
    PageMeans(rows, after, page, next, restricted);
    if next.Some? { CursorAdvances(rows, after, next); }
    InOrder(all, page, after, next);
    forall key | ShownOnAll(boards + [rows], key, restricted) && (next.Some? ==> !Beyond(key, next))
      ensures Lists(all + page, key)
    {
      assert (boards + [rows])[|boards|] == rows;
      if Beyond(key, after) {
        var row :| row in rows && row.cursor == key && Shown(row, restricted);
        ListsRow(all, page, row);
      } else {
        forall k | 0 <= k < |boards| ensures ShownAt(boards[k], key, restricted) {
          assert (boards + [rows])[k] == boards[k];
        }
        ListsMore(all, page, key);
      }
    }
  }

  lemma InOrder(all: seq<Row>, page: seq<Row>, after: Option<Cursor>, next: Option<Cursor>)
    requires Sorted(all) && Sorted(page) && (after.None? ==> all == [])
    requires forall row :: row in page ==> Beyond(row.cursor, after) && (next.Some? ==> !Beyond(row.cursor, next))
    requires after.Some? ==> forall row :: row in all ==> !Beyond(row.cursor, after)
    requires next.Some? ==> Beyond(next.value, after)
    ensures Sorted(all + page)
    ensures next.Some? ==> forall row :: row in all + page ==> !Beyond(row.cursor, next)
  {
    var both := all + page;
    forall i, j | 0 <= i < j < |both| ensures Follows(both[j].cursor, both[i].cursor) {
      if i < |all| <= j {
        assert all[i] in all && page[j - |all|] in page;
        FollowsChains(both[i].cursor, after.value, both[j].cursor);
      }
    }
    if next.Some? {
      forall row | row in both ensures !Beyond(row.cursor, next) {
        if row in all { FollowsChains(row.cursor, after.value, next.value); }
      }
    }
  }

  /** If a does not sort after b, and c does, then c sorts after a and a not after c. */
  lemma FollowsChains(a: Cursor, b: Cursor, c: Cursor)
    requires !Follows(a, b) && Follows(c, b)
    ensures Follows(c, a) && !Follows(a, c)
  {
  }

  lemma ListsRow(all: seq<Row>, page: seq<Row>, row: Row)
    requires row in page
    ensures Lists(all + page, row.cursor)
  {
    var i :| 0 <= i < |page| && page[i] == row;
    assert (all + page)[|all| + i] == row;
  }

  lemma ListsMore(all: seq<Row>, page: seq<Row>, key: Cursor)
    requires Lists(all, key)
    ensures Lists(all + page, key)
  {
    var i :| 0 <= i < |all| && all[i].cursor == key;
    assert (all + page)[i].cursor == key;
  }

  /** Following the cursors while the board changes, page k read from boards[k]: no key is ever listed twice, keys come
      in order, and once the cursors end every key that every page's board showed is listed. */
  method ListChanging(boards: seq<seq<Row>>, requested: int, restricted: bool, maxScan: nat)
    returns (all: seq<Row>, ended: bool, ghost pages: nat)
    requires maxScan > 0 && forall k :: 0 <= k < |boards| ==> Sorted(boards[k])
    ensures pages <= |boards| && Sorted(all)
    ensures ended ==> forall key :: ShownOnAll(boards[..pages], key, restricted) ==> Lists(all, key)
    ensures !ended ==> pages == |boards|
  {
    hide Shown, Follows, RowsAfter, Visible, ListedTo, Sorted;
    all, ended, pages := [], false, 0;
    var next: Option<Cursor> := None;
    NothingListed();
    for k := 0 to |boards|
      invariant pages == k && Sorted(all)
      invariant k == 0 ==> next.None? && all == []
      invariant k > 0 ==> next.Some? && ListedTo(all, boards[..k], next, restricted)
    {
      var page, following, _ := ListPage(boards[k], next, requested, restricted, maxScan);
      ListedFurther(all, boards[..k], next, boards[k], page, following, restricted);
      assert boards[..k + 1] == boards[..k] + [boards[k]];
      all, next, pages := all + page, following, k + 1;
      ListedMeans(all, boards[..k + 1], next, restricted);
      if next.None? {
        ended := true;
        return;
      }
    }
  }

  lemma NothingListed()
    ensures Sorted([])
  {
  }

  lemma ListedMeans(all: seq<Row>, boards: seq<seq<Row>>, next: Option<Cursor>, restricted: bool)
    requires ListedTo(all, boards, next, restricted)
    ensures Sorted(all)
    ensures next.None? ==> forall key :: ShownOnAll(boards, key, restricted) ==> Lists(all, key)
  {
  }

  // ----- The order -----

  /** The listing key orders any two different rows one way only. */
  lemma FollowsIsStrictTotalOrder(a: Cursor, b: Cursor)
    ensures !Follows(a, a)
    ensures a != b ==> (Follows(a, b) <==> !Follows(b, a))
  {
  }

  /** So the rows decide the listing: a board has one sorted order. */
  lemma {:induction false} ListingIsUnique(a: seq<Row>, b: seq<Row>)
    requires Sorted(a) && Sorted(b) && forall row :: row in a <==> row in b
    ensures a == b
    decreases |a|
  {
    if a == [] {
      SomeRow(b);
    } else {
      assert a[0] in a;
      SameFirst(a, b);
      forall row ensures row in a[1..] <==> row in b[1..] {
        RestHolds(a, row);
        RestHolds(b, row);
      }
      ListingIsUnique(a[1..], b[1..]);
      assert a == [a[0]] + a[1..] && b == [b[0]] + b[1..];
    }
  }

  lemma SomeRow(rows: seq<Row>)
    ensures rows != [] ==> exists row :: row in rows
  {
    if rows != [] { assert rows[0] in rows; }
  }

  lemma SameFirst(a: seq<Row>, b: seq<Row>)
    requires Sorted(a) && Sorted(b) && a != [] && b != [] && forall row :: row in a <==> row in b
    ensures a[0] == b[0]
  {
    assert b[0] in b && a[0] in a;
    var i :| 0 <= i < |a| && a[i] == b[0];
    var j :| 0 <= j < |b| && b[j] == a[0];
    if i > 0 && j > 0 { FollowsIsStrictTotalOrder(a[0].cursor, b[0].cursor); }
  }

  lemma RestHolds(rows: seq<Row>, row: Row)
    requires Sorted(rows) && rows != []
    ensures row in rows[1..] <==> row in rows && row != rows[0]
  {
    if row in rows[1..] {
      var i :| 0 <= i < |rows[1..]| && rows[1..][i] == row;
      assert rows[i + 1] == row;
      FollowsIsStrictTotalOrder(row.cursor, row.cursor);
    }
    if row in rows && row != rows[0] {
      var i :| 0 <= i < |rows| && rows[i] == row;
      assert rows[1..][i - 1] == row;
    }
  }
}
