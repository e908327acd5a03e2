// Keyset pagination: what a client that follows the cursors sees. A table is given as its rows in
// the order of the query, newest first; identifiers are compared by whatever strict order the
// database's collation gives.
module Pagination {
  import opened Cursors
  import opened Options

  datatype Row = Row(created: int, id: Bytes, item: int)

  type Order = (Bytes, Bytes) -> bool

  ghost predicate StrictOrder(less: Order) {
    && (forall a, b, c :: less(a, b) && less(b, c) ==> less(a, c))
    && (forall a, b :: less(a, b) ==> !less(b, a))
  }

  // (created_at, id) < (created, id)
  predicate Below(less: Order, r: Row, created: int, id: Bytes) {
    r.created < created || (r.created == created && less(r.id, id))
  }

  ghost predicate NewestFirst(less: Order, rows: seq<Row>) {
    forall i, j | 0 <= i < j < |rows| :: Below(less, rows[j], rows[i].created, rows[i].id)
  }

  // By time, newest first, and at one time by identifier, greatest first.
  lemma NewestFirstMeans(less: Order, rows: seq<Row>)
    ensures NewestFirst(less, rows) <==> forall i, j | 0 <= i < j < |rows| ::
      && rows[i].created >= rows[j].created
      && (rows[i].created == rows[j].created ==> less(rows[j].id, rows[i].id))
  {
    forall i, j | 0 <= i < j < |rows|
      ensures Below(less, rows[j], rows[i].created, rows[i].id) <==>
        && rows[i].created >= rows[j].created
        && (rows[i].created == rows[j].created ==> less(rows[j].id, rows[i].id))
    {
    }
  }

  // ----- One page -----

  datatype Position = Top | After(created: int, id: Bytes)

  predicate Beyond(less: Order, r: Row, pos: Position) {
    pos.Top? || Below(less, r, pos.created, pos.id)
  }

  function Remaining(less: Order, rows: seq<Row>, pos: Position): seq<Row> {
    if rows == [] then []
    else if Beyond(less, rows[0], pos) then [rows[0]] + Remaining(less, rows[1..], pos)
    else Remaining(less, rows[1..], pos)
  }

  function Take<T>(xs: seq<T>, n: nat): seq<T> {
    if |xs| <= n then xs else xs[..n]
  }

  // No cursor is the empty one.
  function PositionOf(clock: Clock, cursor: string): Option<Position> {
    if cursor == "" then Some(Top)
    else
      match DecodeCursor(clock, cursor)
      case None => None
      case Some((created, id)) => Some(After(created, id))
  }

  function CursorAfter(clock: Clock, r: Row): string {
    EncodeCursor(clock, r.created, r.id)
  }

  datatype Page = Page(items: seq<Row>, next: string) | InvalidCursor

  // One row more than the page holds is fetched, to see whether another page follows.
  function ListRecords(clock: Clock, less: Order, rows: seq<Row>, cursor: string, limit: nat): Page {
    var position := PositionOf(clock, cursor);
    if position.None? then InvalidCursor else
    var fetched := Take(Remaining(less, rows, position.value), limit + 1);
    var items := Take(fetched, limit);
    Page(items, if |fetched| > limit && items != [] then CursorAfter(clock, items[|items| - 1]) else "")
  }

  // ----- Following the cursors -----

  datatype Visit = Visit(items: seq<Row>, finished: bool, pages: nat)

  type Listing = (seq<Row>, string) -> Page

  function ListingOf(clock: Clock, less: Order, limit: nat): Listing {
    (rows: seq<Row>, cursor: string) => ListRecords(clock, less, rows, cursor, limit)
  }

  // The client asks for one page after the other; `tables` is what the table holds at each request.
  function Follow(list: Listing, tables: seq<seq<Row>>, cursor: string): Visit {
    if tables == [] then Visit([], false, 0) else
    match list(tables[0], cursor)
    case InvalidCursor => Visit([], false, 0)
    case Page(items, next) =>
      if next == "" then Visit(items, true, 1)
      else
        var rest := Follow(list, tables[1..], next);
        Visit(items + rest.items, rest.finished, rest.pages + 1)
  }

  // ----- What remains after a position -----

  lemma {:induction false} RemainingRows(less: Order, rows: seq<Row>, pos: Position)
    requires NewestFirst(less, rows)
    ensures NewestFirst(less, Remaining(less, rows, pos))
    ensures forall r :: r in Remaining(less, rows, pos) <==> r in rows && Beyond(less, r, pos)
  {
    if rows != [] {
      var rest := Remaining(less, rows[1..], pos);
      RemainingRows(less, rows[1..], pos);
      assert forall j | 0 <= j < |rest| :: rest[j] in rest;
      assert rows == [rows[0]] + rows[1..];
    }
  }

  lemma {:induction false} RemainingIsAll(less: Order, rows: seq<Row>, pos: Position)
    requires forall i | 0 <= i < |rows| :: Beyond(less, rows[i], pos)
    ensures Remaining(less, rows, pos) == rows
  {
    if rows != [] {
      assert Beyond(less, rows[0], pos);
      RemainingIsAll(less, rows[1..], pos);
      assert rows == [rows[0]] + rows[1..];
    }
  }

  lemma {:induction false} RemainingDrops(less: Order, front: seq<Row>, rows: seq<Row>, pos: Position)
    requires forall i | 0 <= i < |front| :: !Beyond(less, front[i], pos)
    ensures Remaining(less, front + rows, pos) == Remaining(less, rows, pos)
  {
    if front == [] {
      assert front + rows == rows;
    } else {
      assert !Beyond(less, front[0], pos);
      assert (front + rows)[1..] == front[1..] + rows;
      RemainingDrops(less, front[1..], rows, pos);
    }
  }

  // ----- Every record is visited once -----

  // Two states of one record: whatever else of it may change, its time and its identifier do not.
  predicate SameRecord(r: Row, r': Row) {
    r.created == r'.created && r.id == r'.id
  }

  // The record is there, in whatever state.
  ghost predicate Holds(rows: seq<Row>, r: Row) {
    exists i :: 0 <= i < |rows| && SameRecord(rows[i], r)
  }

  ghost predicate Includes(a: seq<Row>, b: seq<Row>) {
    forall r | r in a :: Holds(b, r)
  }

  // Records are added and updated, and none is deleted.
  ghost predicate Grows(tables: seq<seq<Row>>) {
    forall j, k | 0 <= j < k < |tables| :: Includes(tables[j], tables[k])
  }

  // The row is as one of the tables had it.
  ghost predicate Had(tables: seq<seq<Row>>, r: Row) {
    exists k :: 0 <= k < |tables| && r in tables[k]
  }

  ghost predicate Shown(tables: seq<seq<Row>>, items: seq<Row>) {
    forall i | 0 <= i < |items| :: Had(tables, items[i])
  }

  // A visit from a position on: in order, beyond the position, of rows as a table had them, and once
  // finished missing no record the table held at its start.
  ghost predicate Covers(less: Order, tables: seq<seq<Row>>, pos: Position, v: Visit) {
    && NewestFirst(less, v.items)
    && (forall i | 0 <= i < |v.items| :: Beyond(less, v.items[i], pos))
    && Shown(tables, v.items)
    && (v.finished ==> tables != [] && forall r | r in tables[0] && Beyond(less, r, pos) :: Holds(v.items, r))
  }

  lemma FullPageIs(clock: Clock, less: Order, rows: seq<Row>, cursor: string, limit: nat, pos: Position)
    requires limit >= 1 && PositionOf(clock, cursor) == Some(pos) && |Remaining(less, rows, pos)| > limit
    ensures var left := Remaining(less, rows, pos);
      ListRecords(clock, less, rows, cursor, limit) == Page(left[..limit], CursorAfter(clock, left[limit - 1]))
  {
    var left := Remaining(less, rows, pos);
    var fetched := Take(left, limit + 1);
    assert Take(fetched, limit) == left[..limit];
  }

  lemma CursorsLead(clock: Clock, r: Row)
    requires ClockOk(clock)
    ensures CursorAfter(clock, r) != "" && PositionOf(clock, CursorAfter(clock, r)) == Some(After(r.created, r.id))
  {
    CursorRoundTrip(clock, r.created, r.id);
  }

  lemma FullPage(clock: Clock, less: Order, rows: seq<Row>, cursor: string, limit: nat, pos: Position)
    requires ClockOk(clock) && limit >= 1 && PositionOf(clock, cursor) == Some(pos)
    requires |Remaining(less, rows, pos)| > limit
    ensures var left := Remaining(less, rows, pos);
      var next := CursorAfter(clock, left[limit - 1]);
      && ListRecords(clock, less, rows, cursor, limit) == Page(left[..limit], next)
      && next != "" && PositionOf(clock, next) == Some(After(left[limit - 1].created, left[limit - 1].id))
  {
    FullPageIs(clock, less, rows, cursor, limit, pos);
    CursorsLead(clock, Remaining(less, rows, pos)[limit - 1]);
  }

  lemma NextPage(clock: Clock, less: Order, rows: seq<Row>, cursor: string, limit: nat, pos: Position)
    returns (next: string)
    requires ClockOk(clock) && limit >= 1 && PositionOf(clock, cursor) == Some(pos)
    requires |Remaining(less, rows, pos)| > limit
    ensures var left := Remaining(less, rows, pos);
      && ListRecords(clock, less, rows, cursor, limit) == Page(left[..limit], next)
      && next != "" && PositionOf(clock, next) == Some(After(left[limit - 1].created, left[limit - 1].id))
  {
    FullPage(clock, less, rows, cursor, limit, pos);
    next := CursorAfter(clock, Remaining(less, rows, pos)[limit - 1]);
  }

  lemma LastPage(clock: Clock, less: Order, rows: seq<Row>, cursor: string, limit: nat, pos: Position)
    requires PositionOf(clock, cursor) == Some(pos) && |Remaining(less, rows, pos)| <= limit
    ensures ListRecords(clock, less, rows, cursor, limit) == Page(Remaining(less, rows, pos), "")
  {
  }

  // A request is refused exactly if its cursor does not read back. Otherwise its page holds as many of
  // the remaining rows as it may, in order, and leads on exactly if there are more.
  lemma PageIs(clock: Clock, less: Order, rows: seq<Row>, cursor: string, limit: nat)
    requires ClockOk(clock) && limit >= 1
    ensures var page := ListRecords(clock, less, rows, cursor, limit);
      && (page.InvalidCursor? <==> cursor != "" && DecodeCursor(clock, cursor).None?)
      && (page.Page? ==>
            var left := Remaining(less, rows, PositionOf(clock, cursor).value);
            && page.items == (if |left| > limit then left[..limit] else left)
            && (page.next == "" <==> |left| <= limit))
  {
    if PositionOf(clock, cursor).Some? {
      var pos := PositionOf(clock, cursor).value;
      if |Remaining(less, rows, pos)| > limit {
        FullPage(clock, less, rows, cursor, limit, pos);
      } else {
        LastPage(clock, less, rows, cursor, limit, pos);
      }
    }
  }

  lemma JoinedInOrder(less: Order, page: seq<Row>, rest: seq<Row>, pos: Position)
    requires StrictOrder(less) && page != [] && NewestFirst(less, page) && NewestFirst(less, rest)
    requires forall i | 0 <= i < |page| :: Beyond(less, page[i], pos)
    requires var last := page[|page| - 1];
      forall i | 0 <= i < |rest| :: Below(less, rest[i], last.created, last.id)
    ensures NewestFirst(less, page + rest)
    ensures forall i | 0 <= i < |page + rest| :: Beyond(less, (page + rest)[i], pos)
  {
    var items, last := page + rest, page[|page| - 1];
    forall i, j | 0 <= i < j < |items| ensures Below(less, items[j], items[i].created, items[i].id) {
      if i < |page| <= j { assert Below(less, rest[j - |page|], last.created, last.id); }
    }
    forall i | 0 <= i < |items| ensures Beyond(less, items[i], pos) {
      if i >= |page| { assert Below(less, rest[i - |page|], last.created, last.id); }
    }
  }

  // A full page, and then a visit of what lies beyond its last row.
  lemma PagesJoin(less: Order, tables: seq<seq<Row>>, limit: nat, pos: Position, rest: Visit)
    requires StrictOrder(less) && limit >= 1 && tables != [] && NewestFirst(less, tables[0])
    requires |tables| > 1 ==> Includes(tables[0], tables[1])
    requires |Remaining(less, tables[0], pos)| > limit
    requires var last := Remaining(less, tables[0], pos)[limit - 1];
      Covers(less, tables[1..], After(last.created, last.id), rest)
    ensures Covers(less, tables, pos,
                   Visit(Remaining(less, tables[0], pos)[..limit] + rest.items, rest.finished, rest.pages + 1))
  {
    var left := Remaining(less, tables[0], pos);
    RemainingRows(less, tables[0], pos);
    assert forall i | 0 <= i < |left| :: left[i] in left;
    var page := left[..limit];
    JoinedInOrder(less, page, rest.items, pos);
    ShownJoin(tables, page, rest.items);
    if rest.finished { NoneIsMissed(less, tables, left, limit, pos, rest.items); }
  }

  lemma NoneIsMissed(less: Order, tables: seq<seq<Row>>, left: seq<Row>, limit: nat, pos: Position, rest: seq<Row>)
    requires |tables| > 1 && Includes(tables[0], tables[1]) && NewestFirst(less, left) && 1 <= limit < |left|
    requires forall r :: r in left <==> r in tables[0] && Beyond(less, r, pos)
    requires forall r | r in tables[1] && Beyond(less, r, After(left[limit - 1].created, left[limit - 1].id)) ::
      Holds(rest, r)
    ensures forall r | r in tables[0] && Beyond(less, r, pos) :: Holds(left[..limit] + rest, r)
  {
    var page, last := left[..limit], left[limit - 1];
    forall r | r in tables[0] && Beyond(less, r, pos) ensures Holds(page + rest, r) {
      assert r in left;
      var i: nat :| i < |left| && left[i] == r;
      if i < limit {
        assert (page + rest)[i] == r;
      } else {
        assert Below(less, left[i], last.created, last.id);
        HoldsLater(less, tables[1], After(last.created, last.id), rest, r);
        HoldsAppended(page, rest, r);
      }
    }
  }

  lemma HadEarlier(tables: seq<seq<Row>>, r: Row)
    requires tables != [] && Had(tables[1..], r)
    ensures Had(tables, r)
  {
    var k :| 0 <= k < |tables[1..]| && r in tables[1..][k];
    assert r in tables[k + 1];
  }

  lemma ShownJoin(tables: seq<seq<Row>>, page: seq<Row>, rest: seq<Row>)
    requires tables != [] && (forall i | 0 <= i < |page| :: page[i] in tables[0]) && Shown(tables[1..], rest)
    ensures Shown(tables, page + rest)
  {
    var items := page + rest;
    forall i | 0 <= i < |items| ensures Had(tables, items[i]) {
      if i < |page| {
        assert page[i] in tables[0];
      } else {
        HadEarlier(tables, rest[i - |page|]);
      }
    }
  }

  lemma HoldsAppended(page: seq<Row>, rest: seq<Row>, r: Row)
    requires Holds(rest, r)
    ensures Holds(page + rest, r)
  {
    var i :| 0 <= i < |rest| && SameRecord(rest[i], r);
    assert (page + rest)[|page| + i] == rest[i];
  }

  // A record beyond the position is among the items if the table holds it in whatever state.
  lemma HoldsLater(less: Order, table: seq<Row>, pos: Position, items: seq<Row>, r: Row)
    requires Holds(table, r) && Beyond(less, r, pos)
    requires forall r' | r' in table && Beyond(less, r', pos) :: Holds(items, r')
    ensures Holds(items, r)
  {
    var i :| 0 <= i < |table| && SameRecord(table[i], r);
    assert table[i] in table && Beyond(less, table[i], pos);
    var j :| 0 <= j < |items| && SameRecord(items[j], table[i]);
    assert SameRecord(items[j], r);
  }

  lemma LastPageCovers(less: Order, tables: seq<seq<Row>>, pos: Position)
    requires tables != [] && NewestFirst(less, tables[0])
    ensures Covers(less, tables, pos, Visit(Remaining(less, tables[0], pos), true, 1))
  {
    var left := Remaining(less, tables[0], pos);
    RemainingRows(less, tables[0], pos);
    forall i | 0 <= i < |left| ensures left[i] in tables[0] && Had(tables, left[i]) {
      assert left[i] in left;
    }
    forall r | r in tables[0] && Beyond(less, r, pos) ensures Holds(left, r) {
      var i: nat :| i < |left| && left[i] == r;
    }
  }

  lemma {:induction false} FollowCovers(
    clock: Clock, less: Order, tables: seq<seq<Row>>, cursor: string, limit: nat, pos: Position)
    requires ClockOk(clock) && StrictOrder(less) && limit >= 1
    requires forall k | 0 <= k < |tables| :: NewestFirst(less, tables[k])
    requires Grows(tables) && PositionOf(clock, cursor) == Some(pos)
    ensures Covers(less, tables, pos, Follow(ListingOf(clock, less, limit), tables, cursor))
    decreases |tables|
  {
    if tables != [] {
      var left := Remaining(less, tables[0], pos);
      if |left| > limit {
        var last, tail := left[limit - 1], tables[1..];
        FullPage(clock, less, tables[0], cursor, limit, pos);
        assert forall k | 0 <= k < |tail| :: tail[k] == tables[k + 1];
        FollowCovers(clock, less, tail, CursorAfter(clock, last), limit, After(last.created, last.id));
        PagesJoin(less, tables, limit, pos, Follow(ListingOf(clock, less, limit), tail, CursorAfter(clock, last)));
      } else {
        LastPage(clock, less, tables[0], cursor, limit, pos);
        LastPageCovers(less, tables, pos);
      }
    }
  }

  // The record is among the items, in one state.
  ghost predicate Once(items: seq<Row>, r: Row) {
    Holds(items, r) &&
    forall i, j | 0 <= i < j < |items| :: !(SameRecord(items[i], r) && SameRecord(items[j], r))
  }

  // Following the cursors from the start visits every record that was there at the start exactly
  // once, newest first, as one of the tables had it, whatever is inserted or updated between the pages.
  lemma EveryRecordOnce(clock: Clock, less: Order, tables: seq<seq<Row>>, limit: nat)
    requires ClockOk(clock) && StrictOrder(less) && limit >= 1 && tables != []
    requires forall k | 0 <= k < |tables| :: NewestFirst(less, tables[k])
    requires Grows(tables) && Follow(ListingOf(clock, less, limit), tables, "").finished
    ensures var v := Follow(ListingOf(clock, less, limit), tables, "");
      NewestFirst(less, v.items) && Shown(tables, v.items) && forall r | r in tables[0] :: Once(v.items, r)
  {
    FollowCovers(clock, less, tables, "", limit, Top);
    var v := Follow(ListingOf(clock, less, limit), tables, "");
    forall r | r in tables[0] ensures Once(v.items, r) {
      assert Beyond(less, r, Top) && Holds(v.items, r);
      forall i, j | 0 <= i < j < |v.items| ensures !(SameRecord(v.items[i], r) && SameRecord(v.items[j], r)) {
        assert Below(less, v.items[j], v.items[i].created, v.items[i].id);
      }
    }
  }

  // ----- How many pages -----

  function PageCount(n: nat, limit: nat): nat
    requires limit >= 1
  {
    if n <= limit then 1 else 1 + PageCount(n - limit, limit)
  }

  // As many pages as it takes for the limit to reach the number of rows, and at least one.
  lemma {:induction false} PageCountIsLeast(n: nat, limit: nat)
    requires limit >= 1
    ensures n <= PageCount(n, limit) * limit
    ensures n > 0 ==> (PageCount(n, limit) - 1) * limit < n
    ensures n == 0 ==> PageCount(n, limit) == 1
  {
    if n > limit {
      var p := PageCount(n - limit, limit);
      PageCountIsLeast(n - limit, limit);
      assert (1 + p) * limit == limit + p * limit;
      assert p * limit == limit + (p - 1) * limit;
    }
  }

  // Rows inserted ahead of the first page do not disturb the rest.
  ghost predicate ExtendsAhead(less: Order, rows: seq<Row>, later: seq<Row>) {
    && |rows| <= |later| && later[|later| - |rows|..] == rows && NewestFirst(less, later)
  }

  ghost predicate AllExtend(less: Order, rows: seq<Row>, tables: seq<seq<Row>>) {
    forall k {:trigger tables[k]} | 0 <= k < |tables| :: ExtendsAhead(less, rows, tables[k])
  }

  lemma RemainingFrom(less: Order, rows: seq<Row>, later: seq<Row>, m: nat)
    requires StrictOrder(less) && ExtendsAhead(less, rows, later) && 1 <= m <= |rows|
    ensures Remaining(less, later, After(rows[m - 1].created, rows[m - 1].id)) == rows[m..]
  {
    var k := |later| - |rows| + m;
    var pos := After(rows[m - 1].created, rows[m - 1].id);
    assert later[k - 1] == rows[m - 1] && later == later[..k] + later[k..];
    assert later[k..] == rows[m..];
    forall i | 0 <= i < k ensures !Beyond(less, later[i], pos) {
      if i < k - 1 { assert Below(less, later[k - 1], later[i].created, later[i].id); }
    }
    RemainingDrops(less, later[..k], later[k..], pos);
    forall i | 0 <= i < |rows[m..]| ensures Beyond(less, rows[m..][i], pos) {
      assert rows[m..][i] == later[k + i];
    }
    RemainingIsAll(less, rows[m..], pos);
  }

  // The position before the m-th row.
  ghost function Before(rows: seq<Row>, m: nat): Position
    requires m <= |rows|
  {
    if m == 0 then Top else After(rows[m - 1].created, rows[m - 1].id)
  }

  // The cursor stands before the m-th row.
  ghost predicate CursorAt(clock: Clock, rows: seq<Row>, m: nat, cursor: string)
    requires m <= |rows|
  {
    PositionOf(clock, cursor) == Some(Before(rows, m))
  }

  // The page that is served before the m-th row: the rest of the rows, or `limit` of them and a
  // cursor that stands before the next.
  ghost predicate Served(at: (nat, string) -> bool, rows: seq<Row>, limit: nat, m: nat, page: Page)
    requires m <= |rows|
  {
    if |rows| - m <= limit then page == Page(rows[m..], "")
    else page.Page? && page.items == rows[m..m + limit] && page.next != "" && at(m + limit, page.next)
  }

  ghost function CursorsOf(clock: Clock, rows: seq<Row>): (nat, string) -> bool {
    (m: nat, cursor: string) => m <= |rows| && CursorAt(clock, rows, m, cursor)
  }

  lemma FullPageFrom(clock: Clock, less: Order, rows: seq<Row>, later: seq<Row>, cursor: string, limit: nat, m: nat)
    requires ClockOk(clock) && limit >= 1 && m + limit < |rows|
    requires PositionOf(clock, cursor) == Some(Before(rows, m)) && Remaining(less, later, Before(rows, m)) == rows[m..]
    ensures Served(CursorsOf(clock, rows), rows, limit, m, ListRecords(clock, less, later, cursor, limit))
  {
    var next := NextPage(clock, less, later, cursor, limit, Before(rows, m));
    assert rows[m..][..limit] == rows[m..m + limit] && rows[m..][limit - 1] == rows[m + limit - 1];
    assert CursorAt(clock, rows, m + limit, next);
  }

  lemma PageFrom(clock: Clock, less: Order, rows: seq<Row>, later: seq<Row>, cursor: string, limit: nat, m: nat)
    requires ClockOk(clock) && StrictOrder(less) && limit >= 1 && m <= |rows|
    requires ExtendsAhead(less, rows, later) && CursorAt(clock, rows, m, cursor)
    requires m == 0 ==> later == rows
    ensures Served(CursorsOf(clock, rows), rows, limit, m, ListRecords(clock, less, later, cursor, limit))
  {
    RemainingAt(less, rows, later, m);
    if |rows| - m > limit {
      FullPageFrom(clock, less, rows, later, cursor, limit, m);
    } else {
      LastPage(clock, less, later, cursor, limit, Before(rows, m));
    }
  }

  lemma RemainingAt(less: Order, rows: seq<Row>, later: seq<Row>, m: nat)
    requires StrictOrder(less) && ExtendsAhead(less, rows, later) && m <= |rows|
    requires m == 0 ==> later == rows
    ensures Remaining(less, later, Before(rows, m)) == rows[m..]
  {
    if m == 0 { RemainingIsAll(less, rows, Top); } else { RemainingFrom(less, rows, later, m); }
  }

  // Whatever the table holds at a request, a cursor before the m-th row is served from there.
  ghost predicate AllServe(
    list: Listing, at: (nat, string) -> bool, rows: seq<Row>, tables: seq<seq<Row>>, limit: nat)
  {
    forall k: nat, m: nat, cursor {:trigger list(tables[k], cursor), at(m, cursor)} ::
      k < |tables| && m <= |rows| && at(m, cursor) && (m == 0 ==> tables[k] == rows) ==>
        Served(at, rows, limit, m, list(tables[k], cursor))
  }

  lemma ExtensionsServe(clock: Clock, less: Order, rows: seq<Row>, tables: seq<seq<Row>>, limit: nat)
    requires ClockOk(clock) && StrictOrder(less) && limit >= 1 && AllExtend(less, rows, tables)
    ensures AllServe(ListingOf(clock, less, limit), CursorsOf(clock, rows), rows, tables, limit)
  {
    var list, at := ListingOf(clock, less, limit), CursorsOf(clock, rows);
    forall k: nat, m: nat, cursor |
      k < |tables| && m <= |rows| && at(m, cursor) && (m == 0 ==> tables[k] == rows)
      ensures Served(at, rows, limit, m, list(tables[k], cursor))
    {
      PageFrom(clock, less, rows, tables[k], cursor, limit, m);
    }
  }

  // From the m-th row and the k-th request on, following the cursors gives the rest of the rows,
  // page by page.
  lemma {:induction false} FollowFrom(
    list: Listing, at: (nat, string) -> bool, rows: seq<Row>, tables: seq<seq<Row>>, k: nat,
    cursor: string, limit: nat, m: nat)
    requires AllServe(list, at, rows, tables, limit) && limit >= 1 && m <= |rows| && k <= |tables|
    requires |tables| - k == PageCount(|rows| - m, limit)
    requires at(m, cursor) && (m == 0 ==> tables[k] == rows)
    ensures Follow(list, tables[k..], cursor) == Visit(rows[m..], true, |tables| - k)
    decreases |tables| - k
  {
    var here, page := tables[k..], list(tables[k], cursor);
    assert here[0] == tables[k] && here[1..] == tables[k + 1..];
    assert Served(at, rows, limit, m, page);
    if |rows| - m > limit {
      FollowFrom(list, at, rows, tables, k + 1, page.next, limit, m + limit);
      assert rows[m..m + limit] + rows[m + limit..] == rows[m..];
    }
  }

  // For a fixed table, and also when newer records keep arriving, the visit ends after the stated
  // number of pages with exactly the records that were there at the start, newest first.
  lemma FollowVisitsTheTable(clock: Clock, less: Order, rows: seq<Row>, tables: seq<seq<Row>>, limit: nat)
    requires ClockOk(clock) && StrictOrder(less) && limit >= 1
    requires |tables| == PageCount(|rows|, limit) && tables[0] == rows
    requires AllExtend(less, rows, tables)
    ensures Follow(ListingOf(clock, less, limit), tables, "") == Visit(rows, true, PageCount(|rows|, limit))
  {
    ExtensionsServe(clock, less, rows, tables, limit);
    FollowFrom(ListingOf(clock, less, limit), CursorsOf(clock, rows), rows, tables, 0, "", limit, 0);
    assert tables[0..] == tables && rows[0..] == rows;
  }
}
