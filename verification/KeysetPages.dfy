/** Keyset pages of comments and notifications over a table that changes between pages. */
module KeysetPages {
  import opened Common

  datatype Row = Row(id: int, at: int, likes: int)

  // The three ORDER BY clauses.
  datatype Order = OldestFirst | NewestFirst | Hottest

  // Every order is the ascending order of a triple.
  datatype Rank = Rank(first: int, second: int, third: int)

  datatype Cursor = Cursor(at: int, id: int, rank: Option<int>)

  datatype PageError = InvalidCursor

  predicate Below(a: Rank, b: Rank) {
    a.first < b.first || (a.first == b.first && (a.second < b.second || (a.second == b.second && a.third < b.third)))
  }

  function RankOf(order: Order, row: Row): Rank {
    match order
    case OldestFirst => Rank(0, row.at, row.id)
    case NewestFirst => Rank(0, -row.at, -row.id)
    case Hottest => Rank(-row.likes, -row.at, -row.id)
  }

  // commentCursorMeta: the cursor of the last row of a page.
  function CursorOf(order: Order, row: Row): Cursor {
    Cursor(row.at, row.id, if order.Hottest? then Some(row.likes) else None)
  }

  function CursorRank(order: Order, c: Cursor): Rank
    requires order.Hottest? ==> c.rank.Some?
  {
    match order
    case OldestFirst => Rank(0, c.at, c.id)
    case NewestFirst => Rank(0, -c.at, -c.id)
    case Hottest => Rank(-c.rank.value, -c.at, -c.id)
  }

  predicate Precedes(order: Order, a: Row, b: Row) { Below(RankOf(order, a), RankOf(order, b)) }

  predicate Readable(order: Order, after: Option<Cursor>) { after.Some? && order.Hottest? ==> after.value.rank.Some? }

  predicate Beyond(order: Order, after: Option<Cursor>, row: Row)
    requires Readable(order, after)
  {
    after.None? || Below(CursorRank(order, after.value), RankOf(order, row))
  }

  function Eligible(rows: set<Row>, order: Order, after: Option<Cursor>): set<Row>
    requires Readable(order, after)
  {
    set r | r in rows && Beyond(order, after, r)
  }

  predicate Sorted(order: Order, rows: seq<Row>) {
    forall i, j :: 0 <= i < j < |rows| ==> Precedes(order, rows[i], rows[j])
  }

  /** The first `limit` eligible rows in order, and whether there are more. */
  ghost predicate IsPage(rows: set<Row>, order: Order, after: Option<Cursor>, limit: nat, page: seq<Row>, more: bool)
  {
    && Readable(order, after)
    && Sorted(order, page)
    && (forall r :: r in page ==> r in Eligible(rows, order, after))
    && |page| <= limit
    && (more ==> |page| == limit)
    && (!more ==> forall r :: r in Eligible(rows, order, after) ==> r in page)
    && (forall r, p :: r in Eligible(rows, order, after) && r !in page && p in page ==> Precedes(order, p, r))
  }

  // Identity columns: one row per id in one state of the table.
  predicate DistinctIds(rows: set<Row>) { forall a, b :: a in rows && b in rows && a.id == b.id ==> a == b }

  lemma OrderIsTotal(order: Order, a: Row, b: Row)
    ensures a.id != b.id ==> Precedes(order, a, b) || Precedes(order, b, a)
    ensures !(Precedes(order, a, b) && Precedes(order, b, a))
  {
  }

  method First(order: Order, rows: set<Row>) returns (first: Row)
    requires rows != {} && DistinctIds(rows)
    ensures first in rows && forall r :: r in rows && r != first ==> Precedes(order, first, r)
  {
    first :| first in rows;
    var rest := rows - {first};
    while rest != {}
      invariant rest <= rows && first in rows && first !in rest
      invariant forall r :: r in rows && r !in rest && r != first ==> Precedes(order, first, r)
      decreases |rest|
    {
      var r :| r in rest;
      OrderIsTotal(order, first, r);
      if Precedes(order, r, first) { first := r; }
      rest := rest - {r};
    }
  }

  /** ORDER BY and LIMIT. */
  method TakeInOrder(order: Order, rows: set<Row>, limit: nat) returns (taken: seq<Row>, left: set<Row>)
    requires DistinctIds(rows)
    ensures Sorted(order, taken) && |taken| == Min(limit, |rows|)
    ensures (forall r :: r in rows <==> r in taken || r in left) && (forall r :: r in taken ==> r !in left)
    ensures |taken| + |left| == |rows|
    ensures forall p, r :: p in taken && r in left ==> Precedes(order, p, r)
  {
    taken, left := [], rows;
    while |taken| < limit && left != {}
      invariant left <= rows && |taken| <= limit && |taken| + |left| == |rows|
      invariant Sorted(order, taken)
      invariant (forall r :: r in rows <==> r in taken || r in left) && (forall r :: r in taken ==> r !in left)
      invariant forall p, r :: p in taken && r in left ==> Precedes(order, p, r)
      decreases |left|
    {
      var r := First(order, left);
      taken, left := taken + [r], left - {r};
    }
  }

  /** Reads one row more than the page holds, and cuts it off again. */
  method FindPage(rows: set<Row>, order: Order, after: Option<Cursor>, limit: nat)
    returns (r: Result<(seq<Row>, bool), PageError>)
    requires DistinctIds(rows)
    ensures r.Err? <==> !Readable(order, after)
    ensures r.Ok? ==> IsPage(rows, order, after, limit, r.value.0, r.value.1)
    ensures r.Ok? ==> (r.value.1 <==> |Eligible(rows, order, after)| > limit)
    ensures r.Ok? ==> |r.value.0| == Min(limit, |Eligible(rows, order, after)|)
  {
    if after.Some? && order.Hottest? && after.value.rank.None? { return Err(InvalidCursor); }
    var found, left := TakeInOrder(order, Eligible(rows, order, after), limit + 1);
    var hasMore := |found| > limit;
    if hasMore {
      var page := found[..limit];
      CutPage(rows, order, after, limit, found, left);
      return Ok((page, true));
    }
    return Ok((found, false));
  }

  lemma CutPage(rows: set<Row>, order: Order, after: Option<Cursor>, limit: nat, found: seq<Row>, left: set<Row>)
    requires Readable(order, after) && |found| == limit + 1 && Sorted(order, found)
    requires forall r :: r in Eligible(rows, order, after) <==> r in found || r in left
    requires forall p, r :: p in found && r in left ==> Precedes(order, p, r)
    ensures IsPage(rows, order, after, limit, found[..limit], true)
  {
    var page := found[..limit];
    assert found == page + [found[limit]];
    forall r, p | r in Eligible(rows, order, after) && r !in page && p in page
      ensures Precedes(order, p, r)
    {
      var i :| 0 <= i < limit && page[i] == p;
      assert found[i] == p;
      if r == found[limit] { assert Precedes(order, found[i], found[limit]); }
    }
  }

  // ---- The orders, by columns ----------------------------------------------------

  predicate Newer(a: Row, b: Row) { a.at > b.at || (a.at == b.at && a.id > b.id) }

  predicate Hotter(a: Row, b: Row) { a.likes > b.likes || (a.likes == b.likes && Newer(a, b)) }

  /** Which of two rows comes first: the newer, the older, or the one with more likes and then the newer. */
  predicate ComesFirst(order: Order, a: Row, b: Row) {
    match order
    case NewestFirst => Newer(a, b)
    case OldestFirst => Newer(b, a)
    case Hottest => Hotter(a, b)
  }

  /** Rows of a page come in that order. */
  lemma PageByColumns(
    rows: set<Row>, order: Order, after: Option<Cursor>, limit: nat, page: seq<Row>, more: bool, i: nat, j: nat)
    requires IsPage(rows, order, after, limit, page, more) && i < j < |page|
    ensures ComesFirst(order, page[i], page[j])
  {
    assert Precedes(order, page[i], page[j]);
  }

  /** A page leaves out only rows that come after all of it, or not beyond the cursor. */
  lemma LeftOutByColumns(
    rows: set<Row>, order: Order, after: Option<Cursor>, limit: nat, page: seq<Row>, more: bool, r: Row, p: Row)
    requires IsPage(rows, order, after, limit, page, more) && r in rows && r !in page && p in page
    requires after.Some? ==> BeyondByColumns(order, after.value, r)
    ensures more && ComesFirst(order, p, r)
  {
    BeyondIsByColumns(order, after, r);
    assert r in Eligible(rows, order, after);
    assert Precedes(order, p, r);
  }

  /** The WHERE clause of a cursor: its fields against the columns of the row. */
  predicate BeyondByColumns(order: Order, c: Cursor, row: Row) {
    match order
    case NewestFirst => row.at < c.at || (row.at == c.at && row.id < c.id)
    case OldestFirst => row.at > c.at || (row.at == c.at && row.id > c.id)
    case Hottest =>
      c.rank.Some? && (row.likes < c.rank.value
                       || (row.likes == c.rank.value && (row.at < c.at || (row.at == c.at && row.id < c.id))))
  }

  lemma BeyondIsByColumns(order: Order, after: Option<Cursor>, row: Row)
    requires Readable(order, after)
    ensures Beyond(order, after, row) <==> after.None? || BeyondByColumns(order, after.value, row)
  {
  }

  /** The next cursor names the last row of the page: a row is beyond it exactly if that row comes first. */
  lemma NextCursorByColumns(order: Order, page: seq<Row>, row: Row)
    requires page != []
    ensures var last := page[|page| - 1];
      && NextCursor(order, page, true).Some? && NextCursor(order, page, false).None?
      && (NextCursor(order, page, true).value.rank.Some? <==> order == Hottest)
      && (BeyondByColumns(order, NextCursor(order, page, true).value, row) <==> ComesFirst(order, last, row))
  {
  }

  // ---- Following the cursors ----------------------------------------------------

  function NextCursor(order: Order, page: seq<Row>, more: bool): Option<Cursor> {
    if !more || |page| == 0 then None else Some(CursorOf(order, page[|page| - 1]))
  }

  /** A reader starts without a cursor and follows each next cursor to the page without more. */
  ghost predicate Followed(tables: seq<set<Row>>, order: Order, limit: nat, pages: seq<seq<Row>>) {
    && |pages| == |tables| > 0 && limit > 0
    && (forall k {:trigger PageAt(tables, order, limit, pages, k)} ::
          0 <= k < |pages| ==> PageAt(tables, order, limit, pages, k))
  }

  // Page k, read from the table as it was then, is not the last exactly when it has more.
  ghost predicate PageAt(tables: seq<set<Row>>, order: Order, limit: nat, pages: seq<seq<Row>>, k: nat)
    requires k < |pages| == |tables|
  {
    IsPage(tables[k], order, CursorBefore(order, pages, k), limit, pages[k], k < |pages| - 1)
  }

  function CursorBefore(order: Order, pages: seq<seq<Row>>, k: nat): Option<Cursor>
    requires k <= |pages|
  {
    if k == 0 then None else NextCursor(order, pages[k - 1], true)
  }

  function Flat(pages: seq<seq<Row>>): seq<Row> {
    if pages == [] then [] else Flat(pages[..|pages| - 1]) + pages[|pages| - 1]
  }

  lemma CursorIsLastRow(order: Order, row: Row)
    ensures Readable(order, Some(CursorOf(order, row))) && CursorRank(order, CursorOf(order, row)) == RankOf(order, row)
  {
  }

  // Pages before the last are full, so the cursor behind them is the rank of the last row shown so far.
  lemma CursorBehind(tables: seq<set<Row>>, order: Order, limit: nat, pages: seq<seq<Row>>, k: nat)
    requires Followed(tables, order, limit, pages) && 0 < k < |pages|
    ensures |pages[k - 1]| == limit
    ensures CursorBefore(order, pages, k) == Some(CursorOf(order, pages[k - 1][limit - 1]))
  {
    assert PageAt(tables, order, limit, pages, k - 1);
  }

  lemma {:induction false} FlatEndsWith(pages: seq<seq<Row>>, k: nat)
    requires 0 < k <= |pages| && |pages[k - 1]| > 0
    ensures |Flat(pages[..k])| > 0
    ensures Flat(pages[..k])[|Flat(pages[..k])| - 1] == pages[k - 1][|pages[k - 1]| - 1]
    ensures Flat(pages[..k]) == Flat(pages[..k - 1]) + pages[k - 1]
  {
    assert pages[..k][..k - 1] == pages[..k - 1];
  }

  lemma SortedAppend(order: Order, a: seq<Row>, b: seq<Row>)
    requires Sorted(order, a) && Sorted(order, b)
    requires a != [] ==> forall n :: 0 <= n < |b| ==> Precedes(order, a[|a| - 1], b[n])
    ensures Sorted(order, a + b)
  {
    forall i, j | 0 <= i < j < |a + b|
      ensures Precedes(order, (a + b)[i], (a + b)[j])
    {
      if i < |a| <= j {
        if i < |a| - 1 { assert Precedes(order, a[i], a[|a| - 1]); }
      }
    }
  }

  // Everything beyond a page's cursor comes after everything shown before it.
  lemma PageComesAfter(tables: seq<set<Row>>, order: Order, limit: nat, pages: seq<seq<Row>>, k: nat)
    requires Followed(tables, order, limit, pages) && 0 < k < |pages|
    ensures |pages[k - 1]| == limit
    ensures forall n :: 0 <= n < |pages[k]| ==> Precedes(order, pages[k - 1][limit - 1], pages[k][n])
  {
    CursorBehind(tables, order, limit, pages, k);
    CursorIsLastRow(order, pages[k - 1][limit - 1]);
    assert PageAt(tables, order, limit, pages, k);
    forall n | 0 <= n < |pages[k]|
      ensures Precedes(order, pages[k - 1][limit - 1], pages[k][n])
    {
      assert pages[k][n] in Eligible(tables[k], order, CursorBefore(order, pages, k));
    }
  }

  lemma {:induction false} PrefixSorted(tables: seq<set<Row>>, order: Order, limit: nat, pages: seq<seq<Row>>, k: nat)
    requires Followed(tables, order, limit, pages) && k <= |pages|
    ensures Sorted(order, Flat(pages[..k]))
  {
    if k > 0 {
      PrefixSorted(tables, order, limit, pages, k - 1);
      assert pages[..k][..k - 1] == pages[..k - 1];
      PageIsSorted(tables, order, limit, pages, k - 1);
      if k > 1 {
        PageComesAfter(tables, order, limit, pages, k - 1);
        FlatEndsWith(pages, k - 1);
      }
      SortedAppend(order, Flat(pages[..k - 1]), pages[k - 1]);
    }
  }

  lemma PageIsSorted(tables: seq<set<Row>>, order: Order, limit: nat, pages: seq<seq<Row>>, k: nat)
    requires Followed(tables, order, limit, pages) && k < |pages|
    ensures Sorted(order, pages[k])
  {
    assert PageAt(tables, order, limit, pages, k);
  }

  /** Across all pages rows come in strictly ascending order, so no position of the order is shown twice. */
  lemma NothingTwice(tables: seq<set<Row>>, order: Order, limit: nat, pages: seq<seq<Row>>)
    requires Followed(tables, order, limit, pages)
    ensures Sorted(order, Flat(pages))
  {
    PrefixSorted(tables, order, limit, pages, |pages|);
    assert pages[..|pages|] == pages;
  }

  // A row keeps its place in the order while the table changes: always so by time, by heat only if likes stand still.
  ghost predicate PlacesFixed(tables: seq<set<Row>>, order: Order) {
    forall j, k, a, b :: 0 <= j < |tables| && 0 <= k < |tables| && a in tables[j] && b in tables[k] && a.id == b.id ==>
      RankOf(order, a) == RankOf(order, b)
  }

  lemma {:induction false} ShownIsFromTable(
    tables: seq<set<Row>>, order: Order, limit: nat, pages: seq<seq<Row>>, k: nat, r: Row)
    requires Followed(tables, order, limit, pages) && k <= |pages| && r in Flat(pages[..k])
    ensures exists j :: 0 <= j < k && r in tables[j]
  {
    assert pages[..k][..k - 1] == pages[..k - 1];
    if r in pages[k - 1] {
      assert PageAt(tables, order, limit, pages, k - 1);
      assert r in tables[k - 1];
    } else {
      ShownIsFromTable(tables, order, limit, pages, k - 1, r);
    }
  }

  /** With fixed places no row is shown twice, although other rows come and go between the pages. */
  lemma NoRowTwice(tables: seq<set<Row>>, order: Order, limit: nat, pages: seq<seq<Row>>, i: nat, j: nat)
    requires Followed(tables, order, limit, pages) && PlacesFixed(tables, order)
    requires i < j < |Flat(pages)|
    ensures Flat(pages)[i].id != Flat(pages)[j].id
  {
    NothingTwice(tables, order, limit, pages);
    var a, b := Flat(pages)[i], Flat(pages)[j];
    assert pages[..|pages|] == pages;
    ShownIsFromTable(tables, order, limit, pages, |pages|, a);
    ShownIsFromTable(tables, order, limit, pages, |pages|, b);
    assert Precedes(order, a, b);
  }

  // The row of this id is in the table, at this place; its other columns may be anything.
  ghost predicate ShownAt(rows: set<Row>, order: Order, id: int, place: Rank) {
    exists r :: r in rows && r.id == id && RankOf(order, r) == place
  }

  predicate Has(rows: seq<Row>, id: int) { exists n :: 0 <= n < |rows| && rows[n].id == id }

  lemma HasInPart(a: seq<Row>, b: seq<Row>, id: int)
    ensures Has(a + b, id) <==> Has(a, id) || Has(b, id)
  {
    if n :| 0 <= n < |a| && a[n].id == id { assert (a + b)[n].id == id; }
    if n :| 0 <= n < |b| && b[n].id == id { assert (a + b)[|a| + n].id == id; }
    if n :| 0 <= n < |a + b| && (a + b)[n].id == id { assert n < |a| || b[n - |a|].id == id; }
  }

  predicate Passed(order: Order, after: Option<Cursor>, place: Rank)
    requires Readable(order, after)
  {
    after.Some? && !Below(CursorRank(order, after.value), place)
  }

  // A page shows the row or leaves its place for later.
  lemma ShownOrLater(
    rows: set<Row>, order: Order, after: Option<Cursor>, limit: nat, page: seq<Row>, more: bool, id: int, place: Rank)
    requires IsPage(rows, order, after, limit, page, more) && ShownAt(rows, order, id, place)
    requires !Passed(order, after, place)
    ensures Has(page, id) || (more && forall p :: p in page ==> Below(RankOf(order, p), place))
  {
    var r :| r in rows && r.id == id && RankOf(order, r) == place;
    assert r in Eligible(rows, order, after);
    if r in page {
      var n :| 0 <= n < |page| && page[n] == r;
    } else {
      forall p | p in page
        ensures Below(RankOf(order, p), place)
      {
        assert Precedes(order, p, r);
      }
    }
  }

  // Once a row's place is behind the cursor of page k, the row was shown on an earlier page.
  lemma {:induction false} PassedMeansShown(
    tables: seq<set<Row>>, order: Order, limit: nat, pages: seq<seq<Row>>, k: nat, id: int, place: Rank)
    requires Followed(tables, order, limit, pages) && k < |pages|
    requires forall j :: 0 <= j < |tables| ==> ShownAt(tables[j], order, id, place)
    ensures Readable(order, CursorBefore(order, pages, k))
    ensures Passed(order, CursorBefore(order, pages, k), place) ==> Has(Flat(pages[..k]), id)
  {
    assert PageAt(tables, order, limit, pages, k);
    if k > 0 {
      CursorBehind(tables, order, limit, pages, k);
      var last := pages[k - 1][limit - 1];
      CursorIsLastRow(order, last);
      PassedMeansShown(tables, order, limit, pages, k - 1, id, place);
      FlatEndsWith(pages, k);
      HasInPart(Flat(pages[..k - 1]), pages[k - 1], id);
      assert PageAt(tables, order, limit, pages, k - 1);
      if !Passed(order, CursorBefore(order, pages, k - 1), place) {
        ShownOrLater(tables[k - 1], order, CursorBefore(order, pages, k - 1), limit, pages[k - 1], true, id, place);
        assert last in pages[k - 1];
      }
    }
  }

  /** A row that stays visible at its place while the pages are read is shown, whatever happens to others. */
  lemma LastingRowIsShown(tables: seq<set<Row>>, order: Order, limit: nat, pages: seq<seq<Row>>, id: int, place: Rank)
    requires Followed(tables, order, limit, pages)
    requires forall j :: 0 <= j < |tables| ==> ShownAt(tables[j], order, id, place)
    ensures Has(Flat(pages), id)
  {
    var last := |pages| - 1;
    PassedMeansShown(tables, order, limit, pages, last, id, place);
    assert PageAt(tables, order, limit, pages, last);
    HasInPart(Flat(pages[..last]), pages[last], id);
    if !Passed(order, CursorBefore(order, pages, last), place) {
      ShownOrLater(tables[last], order, CursorBefore(order, pages, last), limit, pages[last], false, id, place);
    }
  }

  predicate Visible(rows: set<Row>, id: int) { exists r :: r in rows && r.id == id }

  predicate ExactlyOnce(rows: seq<Row>, id: int) {
    exists n :: 0 <= n < |rows| && rows[n].id == id && forall m :: 0 <= m < |rows| && rows[m].id == id ==> m == n
  }

  /**
   * With fixed places, a row that is visible in every table is shown exactly once, whatever happens meanwhile to its
   * other columns and to other rows.
   */
  lemma EveryLastingRowIsShown(tables: seq<set<Row>>, order: Order, limit: nat, pages: seq<seq<Row>>, id: int)
    requires Followed(tables, order, limit, pages) && PlacesFixed(tables, order)
    requires forall j :: 0 <= j < |tables| ==> Visible(tables[j], id)
    ensures ExactlyOnce(Flat(pages), id)
  {
    assert Visible(tables[0], id);
    var first :| first in tables[0] && first.id == id;
    forall j | 0 <= j < |tables|
      ensures ShownAt(tables[j], order, id, RankOf(order, first))
    {
      assert Visible(tables[j], id);
      var r :| r in tables[j] && r.id == id;
      assert RankOf(order, r) == RankOf(order, first);
    }
    LastingRowIsShown(tables, order, limit, pages, id, RankOf(order, first));
    var n :| 0 <= n < |Flat(pages)| && Flat(pages)[n].id == id;
    forall m | 0 <= m < |Flat(pages)| && Flat(pages)[m].id == id
      ensures m == n
    {
      if m < n { NoRowTwice(tables, order, limit, pages, m, n); }
      if n < m { NoRowTwice(tables, order, limit, pages, n, m); }
    }
  }

  /** Rows never change their creation time, so time orders have fixed places; likes have no say in them. */
  lemma TimeOrdersAreFixed(tables: seq<set<Row>>, order: Order)
    requires !order.Hottest?
    requires forall j, k, a, b ::
      0 <= j < |tables| && 0 <= k < |tables| && a in tables[j] && b in tables[k] && a.id == b.id ==> a.at == b.at
    ensures PlacesFixed(tables, order)
  {
  }

  lemma PageOfOne(tables: seq<set<Row>>, order: Order, pages: seq<seq<Row>>, k: nat, row: Row)
    requires k < |tables| == |pages| && pages[k] == [row] && Readable(order, CursorBefore(order, pages, k))
    requires row in tables[k] && Beyond(order, CursorBefore(order, pages, k), row)
    requires forall r :: r in tables[k] && r != row && Beyond(order, CursorBefore(order, pages, k), r) ==>
      k < |pages| - 1 && Precedes(order, row, r)
    ensures PageAt(tables, order, 1, pages, k)
  {
  }

  // ---- How often a row is shown when places move -------------------------------------

  function Times(rows: seq<Row>, id: int): nat {
    if rows == [] then 0 else Times(rows[..|rows| - 1], id) + if rows[|rows| - 1].id == id then 1 else 0
  }

  lemma {:induction false} TimesAppend(a: seq<Row>, b: seq<Row>, id: int)
    ensures Times(a + b, id) == Times(a, id) + Times(b, id)
    decreases |b|
  {
    if b == [] {
      assert a + b == a;
    } else {
      assert (a + b)[..|a + b| - 1] == a + b[..|b| - 1];
      TimesAppend(a, b[..|b| - 1], id);
    }
  }

  predicate OnceAtMost(rows: seq<Row>, id: int) {
    forall m, n :: 0 <= m < n < |rows| ==> !(rows[m].id == id && rows[n].id == id)
  }

  lemma {:induction false} TimesOfDistinct(rows: seq<Row>, id: int)
    requires OnceAtMost(rows, id)
    ensures Times(rows, id) == if Has(rows, id) then 1 else 0
  {
    if rows != [] {
      var init, last := rows[..|rows| - 1], rows[|rows| - 1];
      assert rows == init + [last];
      TimesOfDistinct(init, id);
      HasInPart(init, [last], id);
      assert Has([last], id) <==> last.id == id by {
        if last.id == id { assert [last][0].id == id; }
      }
    }
  }

  lemma {:induction false} TimesIfHas(rows: seq<Row>, id: int)
    ensures Times(rows, id) == 0 <==> !Has(rows, id)
  {
    if rows != [] {
      var init, last := rows[..|rows| - 1], rows[|rows| - 1];
      assert rows == init + [last];
      TimesIfHas(init, id);
      HasInPart(init, [last], id);
      if last.id == id { assert [last][0].id == id; }
    }
  }

  // Around one place of the row, the rows before and after count separately.
  lemma TimesAround(rows: seq<Row>, n: nat, id: int)
    requires n < |rows| && rows[n].id == id
    ensures Times(rows, id) == Times(rows[..n], id) + 1 + Times(rows[n + 1..], id)
  {
    assert rows == (rows[..n] + [rows[n]]) + rows[n + 1..];
    TimesAppend(rows[..n] + [rows[n]], rows[n + 1..], id);
    assert (rows[..n] + [rows[n]])[..n] == rows[..n];
  }

  lemma OnlyPlace(rows: seq<Row>, n: nat, id: int)
    requires n < |rows|
    ensures (forall m :: 0 <= m < |rows| && rows[m].id == id ==> m == n) <==>
      !Has(rows[..n], id) && !Has(rows[n + 1..], id)
  {
    if forall m :: 0 <= m < |rows| && rows[m].id == id ==> m == n {
      assert forall m :: n < m < |rows| ==> rows[n + 1..][m - n - 1] == rows[m];
    }
    forall m | 0 <= m < |rows| && rows[m].id == id && m != n
      ensures Has(rows[..n], id) || Has(rows[n + 1..], id)
    {
      if m < n { assert rows[..n][m].id == id; } else { assert rows[n + 1..][m - n - 1].id == id; }
    }
  }

  lemma TimesOnce(rows: seq<Row>, id: int)
    ensures Times(rows, id) == 1 <==> ExactlyOnce(rows, id)
  {
    TimesIfHas(rows, id);
    if n :| 0 <= n < |rows| && rows[n].id == id {
      TimesAround(rows, n, id);
      TimesIfHas(rows[..n], id);
      TimesIfHas(rows[n + 1..], id);
      OnlyPlace(rows, n, id);
    }
  }

  /** The row of this id still lies behind the cursor in this state of the table. */
  ghost predicate Ahead(rows: set<Row>, order: Order, after: Option<Cursor>, id: int) {
    Readable(order, after) && exists r :: r in rows && r.id == id && Beyond(order, after, r)
  }

  /** Between pages k - 1 and k the row moved from behind the cursor to before it: no later page looks there. */
  ghost predicate Overtaken(tables: seq<set<Row>>, order: Order, pages: seq<seq<Row>>, k: nat, id: int)
    requires 0 < k < |pages| == |tables|
  {
    var cursor := CursorBefore(order, pages, k);
    Ahead(tables[k - 1], order, cursor, id) && !Ahead(tables[k], order, cursor, id)
  }

  /** Between pages k - 1 and k the row moved from before the cursor to behind it: it is still to come, again. */
  ghost predicate FallsBack(tables: seq<set<Row>>, order: Order, pages: seq<seq<Row>>, k: nat, id: int)
    requires 0 < k < |pages| == |tables|
  {
    var cursor := CursorBefore(order, pages, k);
    !Ahead(tables[k - 1], order, cursor, id) && Ahead(tables[k], order, cursor, id)
  }

  // The boundaries before page k, and earlier, at which the row was overtaken or fell back.
  ghost function Overs(tables: seq<set<Row>>, order: Order, pages: seq<seq<Row>>, k: nat, id: int): nat
    requires k < |pages| == |tables|
  {
    if k == 0 then 0
    else Overs(tables, order, pages, k - 1, id) + if Overtaken(tables, order, pages, k, id) then 1 else 0
  }

  ghost function Backs(tables: seq<set<Row>>, order: Order, pages: seq<seq<Row>>, k: nat, id: int): nat
    requires k < |pages| == |tables|
  {
    if k == 0 then 0
    else Backs(tables, order, pages, k - 1, id) + if FallsBack(tables, order, pages, k, id) then 1 else 0
  }

  lemma PageShowsOnce(
    rows: set<Row>, order: Order, after: Option<Cursor>, limit: nat, page: seq<Row>, more: bool, id: int)
    requires IsPage(rows, order, after, limit, page, more) && DistinctIds(rows)
    ensures Times(page, id) == if Has(page, id) then 1 else 0
  {
    forall m, n | 0 <= m < n < |page|
      ensures !(page[m].id == id && page[n].id == id)
    {
      assert page[m] in page && page[n] in page;
      assert Precedes(order, page[m], page[n]);
    }
    TimesOfDistinct(page, id);
  }

  // A row behind the cursor is shown or stays behind the next one, and only such a row.
  lemma ShownIfPassed(
    rows: set<Row>, order: Order, after: Option<Cursor>, limit: nat, page: seq<Row>, id: int)
    requires IsPage(rows, order, after, limit, page, true) && DistinctIds(rows) && limit > 0
    ensures var next := Some(CursorOf(order, page[limit - 1]));
      && (Ahead(rows, order, next, id) ==> Ahead(rows, order, after, id))
      && (Has(page, id) <==> Ahead(rows, order, after, id) && !Ahead(rows, order, next, id))
  {
    var last := page[limit - 1];
    var next := Some(CursorOf(order, last));
    CursorIsLastRow(order, last);
    assert last in page && last in Eligible(rows, order, after);
    if Has(page, id) {
      var n :| 0 <= n < |page| && page[n].id == id;
      assert page[n] in page && page[n] in Eligible(rows, order, after);
      assert n < limit - 1 ==> Precedes(order, page[n], last);
      assert !Beyond(order, next, page[n]);
    }
    if r :| r in rows && r.id == id && Beyond(order, after, r) {
      assert r in Eligible(rows, order, after);
      if r in page {
        var n :| 0 <= n < |page| && page[n] == r;
      } else {
        assert Precedes(order, last, r);
        assert Beyond(order, next, r);
      }
    }
  }

  lemma ShownOnLastPage(rows: set<Row>, order: Order, after: Option<Cursor>, limit: nat, page: seq<Row>, id: int)
    requires IsPage(rows, order, after, limit, page, false)
    ensures Has(page, id) <==> Ahead(rows, order, after, id)
  {
    if Has(page, id) {
      var n :| 0 <= n < |page| && page[n].id == id;
      assert page[n] in page && page[n] in Eligible(rows, order, after);
    }
    if r :| r in rows && r.id == id && Readable(order, after) && Beyond(order, after, r) {
      assert r in Eligible(rows, order, after);
      assert r in page;
      var n :| 0 <= n < |page| && page[n] == r;
    }
  }

  /** How often the row is shown on all pages together. */
  ghost function Showings(pages: seq<seq<Row>>, id: int): nat { Times(Flat(pages), id) }

  /** The tables hold the row throughout, once each. */
  ghost predicate Lasts(tables: seq<set<Row>>, id: int) {
    forall j {:trigger DistinctIds(tables[j])} {:trigger Visible(tables[j], id)} ::
      0 <= j < |tables| ==> DistinctIds(tables[j]) && Visible(tables[j], id)
  }

  function One(b: bool): nat { if b then 1 else 0 }

  // Shown so far, and one more if still to come, is one plus the falls back less the times overtaken.
  lemma {:induction false} Balance(
    tables: seq<set<Row>>, order: Order, limit: nat, pages: seq<seq<Row>>, k: nat, id: int)
    requires Followed(tables, order, limit, pages) && Lasts(tables, id) && k < |pages|
    ensures Times(Flat(pages[..k]), id) + One(Ahead(tables[k], order, CursorBefore(order, pages, k), id)) ==
            1 + Backs(tables, order, pages, k, id) - Overs(tables, order, pages, k, id)
  {
    if k == 0 {
      assert Visible(tables[0], id);
      var r :| r in tables[0] && r.id == id;
      assert Beyond(order, None, r);
    } else {
      Balance(tables, order, limit, pages, k - 1, id);
      assert PageAt(tables, order, limit, pages, k - 1);
      CursorBehind(tables, order, limit, pages, k);
      FlatEndsWith(pages, k);
      TimesAppend(Flat(pages[..k - 1]), pages[k - 1], id);
      var after := CursorBefore(order, pages, k - 1);
      PageShowsOnce(tables[k - 1], order, after, limit, pages[k - 1], true, id);
      ShownIfPassed(tables[k - 1], order, after, limit, pages[k - 1], id);
    }
  }

  /**
   * However places move, a row that is in the table throughout is shown once, and once more for every page boundary at
   * which it falls back behind the cursor, and once less for every boundary at which it is overtaken by it.
   */
  lemma ShownByBoundaries(tables: seq<set<Row>>, order: Order, limit: nat, pages: seq<seq<Row>>, id: int)
    requires Followed(tables, order, limit, pages) && Lasts(tables, id)
    ensures var last := |pages| - 1;
      Showings(pages, id) == 1 + Backs(tables, order, pages, last, id) - Overs(tables, order, pages, last, id)
  {
    var last := |pages| - 1;
    Balance(tables, order, limit, pages, last, id);
    assert PageAt(tables, order, limit, pages, last);
    PageShowsOnce(tables[last], order, CursorBefore(order, pages, last), limit, pages[last], false, id);
    ShownOnLastPage(tables[last], order, CursorBefore(order, pages, last), limit, pages[last], id);
    TimesAppend(Flat(pages[..last]), pages[last], id);
  }

  /** It is shown exactly once if and only if it is overtaken as often as it falls back. */
  lemma ExactlyOnceIff(tables: seq<set<Row>>, order: Order, limit: nat, pages: seq<seq<Row>>, id: int)
    requires Followed(tables, order, limit, pages) && Lasts(tables, id)
    ensures var last := |pages| - 1;
      ExactlyOnce(Flat(pages), id) <==> Backs(tables, order, pages, last, id) == Overs(tables, order, pages, last, id)
  {
    ShownByBoundaries(tables, order, limit, pages, id);
    TimesOnce(Flat(pages), id);
  }

  // The row of this id does not come later in the second table than in the first.
  ghost predicate Rises(earlier: set<Row>, later: set<Row>, order: Order, id: int) {
    forall a, b :: a in earlier && b in later && a.id == b.id == id ==> !Below(RankOf(order, a), RankOf(order, b))
  }

  /** From table to table the row never moves to a later place: by heat, it only gains likes. */
  ghost predicate OnlyRises(tables: seq<set<Row>>, order: Order, id: int) {
    forall j, k :: 0 <= j < k < |tables| ==> Rises(tables[j], tables[k], order, id)
  }

  /** It never moves to an earlier place: by heat, it only loses likes. */
  ghost predicate OnlySinks(tables: seq<set<Row>>, order: Order, id: int) {
    forall j, k :: 0 <= j < k < |tables| ==> Rises(tables[k], tables[j], order, id)
  }

  lemma GainingRises(tables: seq<set<Row>>, id: int)
    requires forall j, k, a, b :: 0 <= j < k < |tables| && a in tables[j] && b in tables[k] && a.id == b.id == id ==>
      a.at == b.at && a.likes <= b.likes
    ensures OnlyRises(tables, Hottest, id)
  {
  }

  lemma LosingSinks(tables: seq<set<Row>>, id: int)
    requires forall j, k, a, b :: 0 <= j < k < |tables| && a in tables[j] && b in tables[k] && a.id == b.id == id ==>
      a.at == b.at && a.likes >= b.likes
    ensures OnlySinks(tables, Hottest, id)
  {
  }

  lemma RisingNeverFallsBack(tables: seq<set<Row>>, order: Order, pages: seq<seq<Row>>, k: nat, id: int)
    requires 0 < k < |pages| == |tables| && Lasts(tables, id) && OnlyRises(tables, order, id)
    ensures !FallsBack(tables, order, pages, k, id)
  {
    var cursor := CursorBefore(order, pages, k);
    if b :| b in tables[k] && b.id == id && Readable(order, cursor) && Beyond(order, cursor, b) {
      assert Visible(tables[k - 1], id);
      var a :| a in tables[k - 1] && a.id == id;
      assert Rises(tables[k - 1], tables[k], order, id);
      assert Beyond(order, cursor, a);
    }
  }

  lemma SinkingIsNeverOvertaken(tables: seq<set<Row>>, order: Order, pages: seq<seq<Row>>, k: nat, id: int)
    requires 0 < k < |pages| == |tables| && Lasts(tables, id) && OnlySinks(tables, order, id)
    ensures !Overtaken(tables, order, pages, k, id)
  {
    var cursor := CursorBefore(order, pages, k);
    if a :| a in tables[k - 1] && a.id == id && Readable(order, cursor) && Beyond(order, cursor, a) {
      assert Visible(tables[k], id);
      var b :| b in tables[k] && b.id == id;
      assert Rises(tables[k], tables[k - 1], order, id);
      assert Beyond(order, cursor, b);
    }
  }

  // Whether it was overtaken, or fell back, at some boundary up to page k.
  ghost predicate EverOvertaken(tables: seq<set<Row>>, order: Order, pages: seq<seq<Row>>, k: nat, id: int)
    requires k < |pages| == |tables|
  {
    k > 0 && (Overtaken(tables, order, pages, k, id) || EverOvertaken(tables, order, pages, k - 1, id))
  }

  ghost predicate EverFellBack(tables: seq<set<Row>>, order: Order, pages: seq<seq<Row>>, k: nat, id: int)
    requires k < |pages| == |tables|
  {
    k > 0 && (FallsBack(tables, order, pages, k, id) || EverFellBack(tables, order, pages, k - 1, id))
  }

  lemma {:induction false} EverMeansSome(tables: seq<set<Row>>, order: Order, pages: seq<seq<Row>>, k: nat, id: int)
    requires k < |pages| == |tables|
    ensures EverOvertaken(tables, order, pages, k, id) <==>
            exists j :: 0 < j <= k && Overtaken(tables, order, pages, j, id)
    ensures EverFellBack(tables, order, pages, k, id) <==>
            exists j :: 0 < j <= k && FallsBack(tables, order, pages, j, id)
  {
    if k > 0 { EverMeansSome(tables, order, pages, k - 1, id); }
  }

  lemma {:induction false} OversByBoundary(tables: seq<set<Row>>, order: Order, pages: seq<seq<Row>>, k: nat, id: int)
    requires k < |pages| == |tables|
    ensures Overs(tables, order, pages, k, id) > 0 <==> EverOvertaken(tables, order, pages, k, id)
  {
    if k > 0 { OversByBoundary(tables, order, pages, k - 1, id); }
  }

  lemma {:induction false} BacksByBoundary(tables: seq<set<Row>>, order: Order, pages: seq<seq<Row>>, k: nat, id: int)
    requires k < |pages| == |tables|
    ensures Backs(tables, order, pages, k, id) > 0 <==> EverFellBack(tables, order, pages, k, id)
  {
    if k > 0 { BacksByBoundary(tables, order, pages, k - 1, id); }
  }

  lemma {:induction false} NoBacks(tables: seq<set<Row>>, order: Order, pages: seq<seq<Row>>, k: nat, id: int)
    requires k < |pages| == |tables| && Lasts(tables, id) && OnlyRises(tables, order, id)
    ensures Backs(tables, order, pages, k, id) == 0
  {
    if k > 0 {
      NoBacks(tables, order, pages, k - 1, id);
      RisingNeverFallsBack(tables, order, pages, k, id);
    }
  }

  lemma {:induction false} NoOvers(tables: seq<set<Row>>, order: Order, pages: seq<seq<Row>>, k: nat, id: int)
    requires k < |pages| == |tables| && Lasts(tables, id) && OnlySinks(tables, order, id)
    ensures Overs(tables, order, pages, k, id) == 0
  {
    if k > 0 {
      NoOvers(tables, order, pages, k - 1, id);
      SinkingIsNeverOvertaken(tables, order, pages, k, id);
    }
  }

  lemma RisingTimes(tables: seq<set<Row>>, order: Order, limit: nat, pages: seq<seq<Row>>, id: int)
    requires Followed(tables, order, limit, pages) && Lasts(tables, id) && OnlyRises(tables, order, id)
    ensures Showings(pages, id) == 1 - Overs(tables, order, pages, |pages| - 1, id)
  {
    ShownByBoundaries(tables, order, limit, pages, id);
    NoBacks(tables, order, pages, |pages| - 1, id);
  }

  lemma SinkingTimes(tables: seq<set<Row>>, order: Order, limit: nat, pages: seq<seq<Row>>, id: int)
    requires Followed(tables, order, limit, pages) && Lasts(tables, id) && OnlySinks(tables, order, id)
    ensures Showings(pages, id) == 1 + Backs(tables, order, pages, |pages| - 1, id)
  {
    ShownByBoundaries(tables, order, limit, pages, id);
    NoOvers(tables, order, pages, |pages| - 1, id);
  }

  /**
   * A row that only gains likes is never repeated, and is missed exactly if the cursor overtakes it at some boundary.
   */
  lemma RisingMissedIff(tables: seq<set<Row>>, order: Order, limit: nat, pages: seq<seq<Row>>, id: int)
    requires Followed(tables, order, limit, pages) && Lasts(tables, id) && OnlyRises(tables, order, id)
    ensures Showings(pages, id) <= 1
    ensures !Has(Flat(pages), id) <==> EverOvertaken(tables, order, pages, |pages| - 1, id)
  {
    RisingTimes(tables, order, limit, pages, id);
    TimesIfHas(Flat(pages), id);
    OversByBoundary(tables, order, pages, |pages| - 1, id);
  }

  lemma RepeatedIfBacks(times: nat, tables: seq<set<Row>>, order: Order, pages: seq<seq<Row>>, k: nat, id: int)
    requires k < |pages| == |tables| && times == 1 + Backs(tables, order, pages, k, id)
    ensures times >= 1 && (times > 1 <==> EverFellBack(tables, order, pages, k, id))
  {
    BacksByBoundary(tables, order, pages, k, id);
  }

  /** A row that only loses likes is never missed, and is repeated exactly if it falls back at some boundary. */
  lemma SinkingRepeatedIff(tables: seq<set<Row>>, order: Order, limit: nat, pages: seq<seq<Row>>, id: int)
    requires Followed(tables, order, limit, pages) && Lasts(tables, id) && OnlySinks(tables, order, id)
    ensures Showings(pages, id) >= 1
    ensures Showings(pages, id) > 1 <==> EverFellBack(tables, order, pages, |pages| - 1, id)
  {
    SinkingTimes(tables, order, limit, pages, id);
    RepeatedIfBacks(Showings(pages, id), tables, order, pages, |pages| - 1, id);
  }

  /** By heat, a row that gains likes between two pages is missed although it was there all the time. */
  lemma HeatCanMiss()
    ensures var cold, warm, warmer := Row(1, 0, 1), Row(2, 0, 5), Row(1, 0, 9);
      Followed([{cold, warm}, {warmer, warm}], Hottest, 1, [[warm], []])
  {
    var cold, warm, warmer := Row(1, 0, 1), Row(2, 0, 5), Row(1, 0, 9);
    var tables, pages := [{cold, warm}, {warmer, warm}], [[warm], []];
    assert CursorBefore(Hottest, pages, 1) == Some(CursorOf(Hottest, warm));
    assert PageAt(tables, Hottest, 1, pages, 0);
    assert PageAt(tables, Hottest, 1, pages, 1);
  }

  /** And one that loses likes is shown twice. */
  lemma HeatCanRepeat()
    ensures var hot, warm, cooled := Row(1, 0, 9), Row(2, 0, 5), Row(1, 0, 1);
      Followed([{hot, warm}, {cooled, warm}, {cooled, warm}], Hottest, 1, [[hot], [warm], [cooled]])
  {
    var hot, warm, cooled := Row(1, 0, 9), Row(2, 0, 5), Row(1, 0, 1);
    var tables, pages := [{hot, warm}, {cooled, warm}, {cooled, warm}], [[hot], [warm], [cooled]];
    ThreePages(tables, pages, hot, warm, cooled);
  }

  lemma ThreePages(tables: seq<set<Row>>, pages: seq<seq<Row>>, a: Row, b: Row, c: Row)
    requires tables == [{a, b}, {c, b}, {c, b}] && pages == [[a], [b], [c]]
    requires Precedes(Hottest, a, b) && Precedes(Hottest, b, c)
    ensures Followed(tables, Hottest, 1, pages)
  {
    CursorIsLastRow(Hottest, a);
    CursorIsLastRow(Hottest, b);
    PageOfOne(tables, Hottest, pages, 0, a);
    PageOfOne(tables, Hottest, pages, 1, b);
    PageOfOne(tables, Hottest, pages, 2, c);
  }
}
