/** Keyset pagination of the audit log while events keep being appended. */
module Pagination {
  import opened Options
  import opened IsoTime

  datatype Row = Row(id: string, time: Instant, kind: nat, severity: nat)

  datatype Cursor = Cursor(time: Instant, id: string)

  datatype Filter = Filter(before: Option<Instant>, after: Option<Instant>, kind: Option<nat>, severity: Option<nat>)

  datatype Error = LimitOutOfRange | CursorWithBefore | AfterNotEarlier

  datatype Page = Page(items: seq<Row>, next: Option<Cursor>)

  datatype Result<+T> = Ok(value: T) | Err(error: Error)

  // ---------------------------------------------------------------- the SQL query

  /** The table's primary key is the event id, and its clock is UTC. */
  ghost predicate IsTable(table: set<Row>) {
    && (forall r, s :: r in table && s in table && r.id == s.id ==> r == s)
    && (forall r :: r in table ==> r.time.Valid())
  }

  /** The WHERE clause of the filters: comparisons of text. */
  predicate Selected(f: Filter, r: Row) {
    && (f.before.Some? ==> Below(Iso(r.time), Iso(f.before.value)))
    && (f.after.Some? ==> Below(Iso(f.after.value), Iso(r.time)))
    && (f.kind.Some? ==> r.kind == f.kind.value)
    && (f.severity.Some? ==> r.severity == f.severity.value)
  }

  /** The cursor clause: (timestamp < ? OR (timestamp = ? AND event_id < ?)). */
  predicate Past(r: Row, c: Cursor) {
    Below(Iso(r.time), Iso(c.time)) || (Iso(r.time) == Iso(c.time) && Below(r.id, c.id))
  }

  function CursorOf(r: Row): Cursor {
    Cursor(r.time, r.id)
  }

  ghost function Wanted(table: set<Row>, f: Filter, c: Option<Cursor>): set<Row> {
    set r | r in table && Selected(f, r) && (c.Some? ==> Past(r, c.value))
  }

  /** ORDER BY timestamp DESC, event_id DESC. */
  ghost predicate Descending(rows: seq<Row>) {
    forall i, j :: 0 <= i < j < |rows| ==> Past(rows[j], CursorOf(rows[i]))
  }

  /** What ORDER BY ... LIMIT returns: the rows in order, all of them or the `limit` that come first. */
  ghost predicate IsTop(rows: set<Row>, limit: nat, answer: seq<Row>) {
    && Descending(answer)
    && (forall r :: r in answer ==> r in rows)
    && |answer| <= limit
    && (|answer| < limit ==> forall r :: r in rows ==> r in answer)
    && (forall r, i :: r in rows && r !in answer && 0 <= i < |answer| ==> Past(r, CursorOf(answer[i])))
  }

  // ---------------------------------------------------------------- order

  lemma {:induction false} BelowTransitive(a: string, b: string, c: string)
    requires Below(a, b) && Below(b, c)
    ensures Below(a, c)
    decreases |a|
  {
    if a != [] && a[0] == b[0] == c[0] {
      BelowTransitive(a[1..], b[1..], c[1..]);
    }
  }

  lemma {:induction false} BelowConnected(a: string, b: string)
    ensures a == b || Below(a, b) || Below(b, a)
    decreases |a|
  {
    if a != [] && b != [] && a[0] == b[0] {
      BelowConnected(a[1..], b[1..]);
      assert a == [a[0]] + a[1..] && b == [b[0]] + b[1..];
    }
  }

  lemma PastTransitive(a: Row, b: Row, c: Cursor)
    requires Past(a, CursorOf(b)) && Past(b, c)
    ensures Past(a, c)
  {
    var x, y, z := Iso(a.time), Iso(b.time), Iso(c.time);
    if Below(x, y) && Below(y, z) {
      BelowTransitive(x, y, z);
    } else if x == y == z {
      BelowTransitive(a.id, b.id, c.id);
    }
  }

  lemma PastConnected(a: Row, b: Row)
    requires a.id != b.id
    ensures Past(a, CursorOf(b)) || Past(b, CursorOf(a))
  {
    BelowConnected(Iso(a.time), Iso(b.time));
    BelowConnected(a.id, b.id);
  }

  lemma PastIrreflexive(a: Row)
    ensures !Past(a, CursorOf(a))
  {
    BelowIrreflexive(Iso(a.time));
    BelowIrreflexive(a.id);
  }

  // ---------------------------------------------------------------- the query has exactly one answer

  lemma {:induction false} GreatestExists(rows: set<Row>) returns (top: Row)
    requires rows != {} && IsTable(rows)
    ensures top in rows && forall r :: r in rows && r != top ==> Past(r, CursorOf(top))
    decreases |rows|
  {
    var x :| x in rows;
    var others := rows - {x};
    if others == {} {
      top := x;
      assert rows == {x};
    } else {
      var y := GreatestExists(others);
      PastConnected(x, y);
      if Past(x, CursorOf(y)) {
        top := y;
      } else {
        top := x;
        forall r | r in rows && r != x
          ensures Past(r, CursorOf(x))
        {
          if r != y {
            PastTransitive(r, y, CursorOf(x));
          }
        }
      }
    }
  }

  lemma {:induction false} TopExists(rows: set<Row>, limit: nat) returns (answer: seq<Row>)
    requires IsTable(rows)
    ensures IsTop(rows, limit, answer)
    decreases limit
  {
    if rows == {} || limit == 0 {
      answer := [];
    } else {
      hide IsTop, Past;
      var top := GreatestExists(rows);
      var rest := TopExists(rows - {top}, limit - 1);
      answer := [top] + rest;
      TopCons(rows, limit, top, rest);
    }
  }

  lemma TopCons(rows: set<Row>, limit: nat, top: Row, rest: seq<Row>)
    requires limit > 0 && top in rows && forall r :: r in rows && r != top ==> Past(r, CursorOf(top))
    requires IsTop(rows - {top}, limit - 1, rest)
    ensures IsTop(rows, limit, [top] + rest)
  {
    hide Past, CursorOf;
    var answer := [top] + rest;
    forall i, j | 0 <= i < j < |answer|
      ensures Past(answer[j], CursorOf(answer[i]))
    {
      assert answer[j] == rest[j - 1] && rest[j - 1] in rest;
    }
    forall r, i | r in rows && r !in answer && 0 <= i < |answer|
      ensures Past(r, CursorOf(answer[i]))
    {
      assert answer[0] == top && (i > 0 ==> answer[i] == rest[i - 1]);
    }
    assert forall r :: r in answer <==> r == top || r in rest;
  }

  lemma {:induction false} TopUnique(rows: set<Row>, limit: nat, a: seq<Row>, b: seq<Row>)
    requires IsTop(rows, limit, a) && IsTop(rows, limit, b)
    ensures a == b
    decreases limit
  {
    assert a != [] ==> a[0] in a;
    assert b != [] ==> b[0] in b;
    if a != [] && b != [] {
      if a[0] != b[0] {
        TopAbove(rows, limit, a, b[0]);
        TopAbove(rows, limit, b, a[0]);
        PastTransitive(a[0], b[0], CursorOf(a[0]));
        PastIrreflexive(a[0]);
      }
      TopTail(rows, limit, a);
      TopTail(rows, limit, b);
      TopUnique(rows - {a[0]}, limit - 1, a[1..], b[1..]);
      assert a == [a[0]] + a[1..] && b == [b[0]] + b[1..];
    }
  }

  lemma TopAbove(rows: set<Row>, limit: nat, a: seq<Row>, r: Row)
    requires IsTop(rows, limit, a) && a != [] && r in rows && r != a[0]
    ensures Past(r, CursorOf(a[0]))
  {
  }

  lemma TopTail(rows: set<Row>, limit: nat, a: seq<Row>)
    requires IsTop(rows, limit, a) && a != []
    ensures IsTop(rows - {a[0]}, limit - 1, a[1..])
  {
    hide Past;
    PastIrreflexive(a[0]);
    assert forall r :: r in a <==> r == a[0] || r in a[1..];
    forall r | r in a[1..]
      ensures r != a[0]
    {
      var i :| 0 <= i < |a[1..]| && a[1..][i] == r;
      assert a[i + 1] == r;
    }
  }

  // ---------------------------------------------------------------- the query service

  ghost function Query(table: set<Row>, f: Filter, c: Option<Cursor>, limit: nat): (answer: seq<Row>)
    requires IsTable(table)
    ensures IsTop(Wanted(table, f, c), limit, answer)
  {
    assert exists a :: IsTop(Wanted(table, f, c), limit, a) by {
      var a := TopExists(Wanted(table, f, c), limit);
    }
    var answer :| IsTop(Wanted(table, f, c), limit, answer);
    answer
  }

  function Validate(maximum: nat, limit: int, resuming: bool, f: Filter): Option<Error> {
    if limit <= 0 || limit > maximum then Some(LimitOutOfRange)
    else if resuming && f.before.Some? then Some(CursorWithBefore)
    else if f.before.Some? && f.after.Some? && !Earlier(f.after.value, f.before.value) then Some(AfterNotEarlier)
    else None
  }

  ghost function ListEvents(table: set<Row>, maximum: nat, limit: int, c: Option<Cursor>, f: Filter): Result<Page>
    requires IsTable(table)
  {
    var e := Validate(maximum, limit, c.Some?, f);
    if e.Some? then Err(e.value)
    else
      var events := Query(table, f, c, limit + 1);
      var items := if |events| > limit then events[..limit] else events;
      Ok(Page(items, if |events| > limit && items != [] then Some(CursorOf(items[|items| - 1])) else None))
  }

  // ---------------------------------------------------------------- following the cursor

  datatype Walked = Walked(items: seq<Row>, complete: bool)

  ghost predicate AllTables(tables: seq<set<Row>>) {
    forall i :: 0 <= i < |tables| ==> IsTable(tables[i])
  }

  /** Rows are only ever added. */
  ghost predicate Growing(tables: seq<set<Row>>) {
    forall i, j :: 0 <= i <= j < |tables| ==> tables[i] <= tables[j]
  }

  /** One page from each table in turn: the first call may use `before`, later ones use the cursor alone,
      and the walk is complete at the page that gives no cursor. */
  ghost function Walk(tables: seq<set<Row>>, maximum: nat, limit: int, c: Option<Cursor>, f: Filter): Walked
    requires AllTables(tables)
  {
    if tables == [] then Walked([], false)
    else
      var page := ListEvents(tables[0], maximum, limit, c, f);
      if page.Err? then Walked([], false)
      else if page.value.next == None then Walked(page.value.items, true)
      else
        var rest := Walk(tables[1..], maximum, limit, page.value.next, f.(before := None));
        Walked(page.value.items + rest.items, rest.complete)
  }

  /** Cutting an answer one short of its limit keeps its order, and what is cut lies past the cut. */
  lemma TopCut(rows: set<Row>, limit: nat, events: seq<Row>)
    requires IsTop(rows, limit + 1, events) && |events| > limit > 0
    ensures var items := events[..limit];
      && Descending(items)
      && (forall r :: r in items ==> r in rows)
      && forall r :: r in rows && r !in items ==> Past(r, CursorOf(items[limit - 1]))
  {
    hide Past;
    var items := events[..limit];
    assert forall r :: r in items ==> r in events;
    assert forall i :: 0 <= i < limit ==> events[i] == items[i] && items[i] in items;
    forall r | r in rows && r !in items
      ensures Past(r, CursorOf(items[limit - 1]))
    {
      if r in events {
        var i :| 0 <= i < |events| && events[i] == r;
      }
    }
  }

  /** The page holds the wanted rows down to its cursor; without a cursor it holds them all. */
  ghost predicate IsPage(wanted: set<Row>, limit: int, page: Page) {
    && Descending(page.items)
    && (forall r :: r in page.items ==> r in wanted)
    && (page.next == None ==> forall r :: r in wanted ==> r in page.items)
    && (page.next.Some? ==>
          && |page.items| == limit > 0
          && page.next == Some(CursorOf(page.items[limit - 1]))
          && forall r :: r in wanted && r !in page.items ==> Past(r, page.next.value))
  }

  lemma ListEventsGivesPage(table: set<Row>, maximum: nat, limit: int, c: Option<Cursor>, f: Filter)
    requires IsTable(table) && Validate(maximum, limit, c.Some?, f) == None
    ensures var page := ListEvents(table, maximum, limit, c, f);
      page.Ok? && IsPage(Wanted(table, f, c), limit, page.value)
  {
    hide Past, IsTable, Wanted;
    var events := Query(table, f, c, limit + 1);
    if |events| > limit {
      TopCut(Wanted(table, f, c), limit, events);
    }
  }

  /** Rows past a page's cursor lie before the bound that the first page used, so dropping it is harmless. */
  lemma CursorImpliesBefore(f: Filter, last: Row, r: Row)
    requires Selected(f, last) && Past(r, CursorOf(last)) && Selected(f.(before := None), r)
    ensures Selected(f, r)
  {
    if f.before.Some? && Below(Iso(r.time), Iso(last.time)) {
      BelowTransitive(Iso(r.time), Iso(last.time), Iso(f.before.value));
    }
  }

  ghost predicate Covers(items: seq<Row>, first: set<Row>, last: set<Row>) {
    && Descending(items)
    && (forall r :: r in first ==> r in items)
    && (forall r :: r in items ==> r in last)
  }

  lemma RestIsWanted(table: set<Row>, f: Filter, c: Option<Cursor>, bottom: Row, r: Row)
    requires Selected(f, bottom) && (c.Some? ==> Past(bottom, c.value))
    requires r in Wanted(table, f.(before := None), Some(CursorOf(bottom)))
    ensures r in Wanted(table, f, c)
  {
    CursorImpliesBefore(f, bottom, r);
    if c.Some? {
      PastTransitive(r, bottom, c.value);
    }
  }

  lemma {:induction false} DescendingJoin(items: seq<Row>, rest: seq<Row>)
    requires items != [] && Descending(items) && Descending(rest)
    requires forall r :: r in rest ==> Past(r, CursorOf(items[|items| - 1]))
    ensures Descending(items + rest)
  {
    hide Past;
    var bottom := items[|items| - 1];
    forall i, j | 0 <= i < j < |items + rest|
      ensures Past((items + rest)[j], CursorOf((items + rest)[i]))
    {
      if i < |items| <= j {
        var r := rest[j - |items|];
        assert r in rest;
        if i < |items| - 1 {
          PastTransitive(r, bottom, CursorOf(items[i]));
        }
      }
    }
  }

  lemma JoinPages(f: Filter, c: Option<Cursor>, first: set<Row>, second: set<Row>, last: set<Row>,
                  limit: int, page: Page, rest: seq<Row>)
    requires first <= second <= last && page.next.Some? && IsPage(Wanted(first, f, c), limit, page)
    requires var f' := f.(before := None);
      Covers(rest, Wanted(second, f', page.next), Wanted(last, f', page.next))
    ensures Covers(page.items + rest, Wanted(first, f, c), Wanted(last, f, c))
  {
    var bottom := page.items[limit - 1];
    assert bottom in page.items;
    forall r | r in rest
      ensures r in Wanted(last, f, c)
    {
      RestIsWanted(last, f, c, bottom, r);
    }
    forall r | r in Wanted(first, f, c)
      ensures r in page.items || r in rest
    {
      assert r !in page.items ==> r in Wanted(second, f.(before := None), page.next);
    }
    assert forall r :: r in rest ==> Past(r, CursorOf(bottom));
    DescendingJoin(page.items, rest);
  }

  /** Following the cursor to the end while the log grows returns every matching event of the first fetch
      exactly once, newest first, and nothing that does not match. */
  lemma {:induction false} WalkIsComplete(tables: seq<set<Row>>, maximum: nat, limit: int, c: Option<Cursor>, f: Filter)
    requires AllTables(tables) && Growing(tables)
    requires Validate(maximum, limit, c.Some?, f) == None
    requires Walk(tables, maximum, limit, c, f).complete
    ensures tables != []
    ensures Covers(Walk(tables, maximum, limit, c, f).items,
                   Wanted(tables[0], f, c), Wanted(tables[|tables| - 1], f, c))
    decreases |tables|
  {
    var n := |tables| - 1;
    var page := ListEvents(tables[0], maximum, limit, c, f).value;
    ListEventsGivesPage(tables[0], maximum, limit, c, f);
    hide ListEvents, IsTable, Selected, Past;
    if page.next == None {
      assert Wanted(tables[0], f, c) <= Wanted(tables[n], f, c);
    } else {
      var f' := f.(before := None);
      var rest := Walk(tables[1..], maximum, limit, page.next, f');
      assert Walk(tables, maximum, limit, c, f) == Walked(page.items + rest.items, rest.complete);
      hide Walk, Wanted, Covers, IsPage;
      WalkIsComplete(tables[1..], maximum, limit, page.next, f');
      JoinPages(f, c, tables[0], tables[1], tables[n], limit, page, rest.items);
    }
  }

  /** No event is returned twice. */
  lemma DescendingIsDistinct(items: seq<Row>, i: nat, j: nat)
    requires Descending(items) && i < j < |items|
    ensures items[i] != items[j]
  {
    PastIrreflexive(items[i]);
  }

  // ---------------------------------------------------------------- a quiet log is walked in bounded time

  lemma {:induction false} DistinctCount(items: seq<Row>, rows: set<Row>)
    requires Descending(items) && forall r :: r in items ==> r in rows
    ensures |items| <= |rows|
    decreases |items|
  {
    if items != [] {
      var tail := items[1..];
      forall r | r in tail
        ensures r in rows - {items[0]}
      {
        var i :| 0 <= i < |tail| && tail[i] == r;
        DescendingIsDistinct(items, 0, i + 1);
      }
      DistinctCount(tail, rows - {items[0]});
    }
  }

  lemma NotPastBottom(items: seq<Row>, i: nat)
    requires Descending(items) && i < |items|
    ensures !Past(items[i], CursorOf(items[|items| - 1]))
  {
    var bottom := items[|items| - 1];
    PastIrreflexive(bottom);
    if i < |items| - 1 && Past(items[i], CursorOf(bottom)) {
      PastTransitive(bottom, items[i], CursorOf(bottom));
    }
  }

  lemma ServedIsNotLeft(table: set<Row>, f: Filter, items: seq<Row>, i: nat)
    requires Descending(items) && i < |items|
    ensures items[i] !in Wanted(table, f, Some(CursorOf(items[|items| - 1])))
  {
    NotPastBottom(items, i);
  }

  lemma CountLeft(items: seq<Row>, wanted: set<Row>, left: set<Row>)
    requires Descending(items) && left <= wanted
    requires forall r :: r in items ==> r in wanted && r !in left
    ensures |left| + |items| <= |wanted|
  {
    hide Descending;
    DistinctCount(items, wanted - left);
  }

  lemma LeftIsWanted(table: set<Row>, f: Filter, c: Option<Cursor>, bottom: Row)
    requires bottom in Wanted(table, f, c)
    ensures Wanted(table, f.(before := None), Some(CursorOf(bottom))) <= Wanted(table, f, c)
  {
    hide Past, Selected, CursorOf;
    forall r | r in Wanted(table, f.(before := None), Some(CursorOf(bottom)))
      ensures r in Wanted(table, f, c)
    {
      RestIsWanted(table, f, c, bottom, r);
    }
  }

  lemma RemainingRows(table: set<Row>, f: Filter, c: Option<Cursor>, limit: int, page: Page)
    requires page.next.Some? && IsPage(Wanted(table, f, c), limit, page)
    ensures |Wanted(table, f.(before := None), page.next)| + limit <= |Wanted(table, f, c)|
  {
    hide Past, Wanted, Descending, CursorOf;
    var items := page.items;
    assert items[limit - 1] in items;
    var wanted, left := Wanted(table, f, c), Wanted(table, f.(before := None), page.next);
    LeftIsWanted(table, f, c, items[limit - 1]);
    forall r | r in items
      ensures r in wanted && r !in left
    {
      var i :| 0 <= i < limit && items[i] == r;
      ServedIsNotLeft(table, f.(before := None), items, i);
    }
    CountLeft(items, wanted, left);
  }

  /** How many rows a number of pages holds. */
  function Room(pages: nat, limit: int): int {
    if pages == 0 then 0 else limit + Room(pages - 1, limit)
  }

  lemma {:induction false} RoomIsProduct(pages: nat, limit: int)
    ensures Room(pages, limit) == pages * limit
  {
    if pages > 0 {
      RoomIsProduct(pages - 1, limit);
    }
  }

  lemma WalkSplits(table: set<Row>, pages: nat, maximum: nat, limit: int, c: Option<Cursor>, f: Filter)
    requires IsTable(table) && Validate(maximum, limit, c.Some?, f) == None && pages > 0
    ensures var page := ListEvents(table, maximum, limit, c, f).value;
      Walk(seq(pages, _ => table), maximum, limit, c, f).complete ==
      (page.next == None || Walk(seq(pages - 1, _ => table), maximum, limit, page.next, f.(before := None)).complete)
  {
    ListEventsGivesPage(table, maximum, limit, c, f);
    hide ListEvents, IsTable;
    assert seq(pages, _ => table)[1..] == seq(pages - 1, _ => table);
  }

  lemma {:induction false} WalkFits(table: set<Row>, pages: nat, maximum: nat, limit: int, c: Option<Cursor>, f: Filter)
    requires IsTable(table) && Validate(maximum, limit, c.Some?, f) == None
    requires pages > 0 && |Wanted(table, f, c)| <= Room(pages, limit)
    ensures Walk(seq(pages, _ => table), maximum, limit, c, f).complete
    decreases pages
  {
    hide Walk, ListEvents, IsTable, Wanted, IsPage;
    ListEventsGivesPage(table, maximum, limit, c, f);
    var page := ListEvents(table, maximum, limit, c, f).value;
    WalkSplits(table, pages, maximum, limit, c, f);
    if pages == 1 {
      LastPage(table, maximum, limit, c, f);
    } else if page.next.Some? {
      RemainingRows(table, f, c, limit, page);
      WalkFits(table, pages - 1, maximum, limit, page.next, f.(before := None));
    }
  }

  /** If nothing is appended, the walk is complete after as many pages as the matching rows fill. */
  lemma QuietWalkEnds(table: set<Row>, pages: nat, maximum: nat, limit: int, c: Option<Cursor>, f: Filter)
    requires IsTable(table) && Validate(maximum, limit, c.Some?, f) == None
    requires pages > 0 && |Wanted(table, f, c)| <= pages * limit
    ensures Walk(seq(pages, _ => table), maximum, limit, c, f).complete
  {
    RoomIsProduct(pages, limit);
    WalkFits(table, pages, maximum, limit, c, f);
  }

  lemma LastPage(table: set<Row>, maximum: nat, limit: int, c: Option<Cursor>, f: Filter)
    requires IsTable(table) && Validate(maximum, limit, c.Some?, f) == None
    requires |Wanted(table, f, c)| <= limit
    ensures ListEvents(table, maximum, limit, c, f).value.next == None
  {
    DistinctCount(Query(table, f, c, limit + 1), Wanted(table, f, c));
  }

  // ---------------------------------------------------------------- what the comparisons mean

  lemma IsoInjective(a: Instant, b: Instant)
    requires a.Valid() && b.Valid() && Iso(a) == Iso(b)
    ensures a == b
  {
    IsoRoundTrip(a);
    IsoRoundTrip(b);
  }

  /** The text comparisons of the query are comparisons of time. */
  lemma ComparisonsMeanTime(f: Filter, c: Cursor, r: Row)
    requires r.time.Valid() && c.time.Valid()
    requires (f.before.Some? ==> f.before.value.Valid()) && (f.after.Some? ==> f.after.value.Valid())
    ensures Selected(f, r) <==>
      && (f.before.Some? ==> Earlier(r.time, f.before.value))
      && (f.after.Some? ==> Earlier(f.after.value, r.time))
      && (f.kind.Some? ==> r.kind == f.kind.value)
      && (f.severity.Some? ==> r.severity == f.severity.value)
    ensures Past(r, c) <==> Earlier(r.time, c.time) || (r.time == c.time && Below(r.id, c.id))
  {
    hide Iso, Below, Earlier;
    if f.before.Some? {
      IsoOrder(r.time, f.before.value);
    }
    if f.after.Some? {
      IsoOrder(f.after.value, r.time);
    }
    IsoOrder(r.time, c.time);
    if Iso(r.time) == Iso(c.time) {
      IsoInjective(r.time, c.time);
    }
  }
}
