/** Keyset pagination of a project's events: newest first, one row more than asked for, and the id of
    the last row as the cursor. */
module Paging {
  import opened Basics

  // Timestamps and ids are only compared; ids break ties and are unique.
  datatype Event = Event(id: Id, createdAt: int, project: Id, kind: string)

  datatype Filter = Filter(project: Id, kind: Option<string>)

  type Table = set<Event>

  predicate Matches(e: Event, f: Filter) {
    e.project == f.project && (f.kind.Some? && f.kind.value != "" ==> e.kind == f.kind.value)
  }

  ghost predicate UniqueIds(table: Table) {
    forall a, b :: a in table && b in table && a.id == b.id ==> a == b
  }

  ghost predicate AllUnique(tables: seq<Table>) {
    forall i :: 0 <= i < |tables| ==> UniqueIds(tables[i])
  }

  /** ORDER BY createdAt DESC, id DESC. */
  predicate Before(a: Event, b: Event) {
    a.createdAt > b.createdAt || (a.createdAt == b.createdAt && a.id > b.id)
  }

  // ---- Ordering --------------------------------------------------------------------------

  ghost predicate Ordered(s: seq<Event>) {
    forall i, j :: 0 <= i < j < |s| ==> Before(s[i], s[j])
  }

  lemma FirstExists(rows: Table)
    requires rows != {} && UniqueIds(rows)
    ensures exists e :: e in rows && forall x :: x in rows && x != e ==> Before(e, x)
    decreases rows
  {
    var e :| e in rows;
    if rows != {e} {
      FirstExists(rows - {e});
      var f :| f in rows - {e} && forall x :: x in rows - {e} && x != f ==> Before(f, x);
      var first := if Before(e, f) then e else f;
      forall x | x in rows && x != first ensures Before(first, x) {
        assert x == e || x == f || Before(f, x);
      }
    }
  }

  ghost function Sort(rows: Table): seq<Event>
    requires UniqueIds(rows)
    decreases rows
  {
    if rows == {} then []
    else
      FirstExists(rows);
      var e :| e in rows && forall x :: x in rows && x != e ==> Before(e, x);
      [e] + Sort(rows - {e})
  }

  lemma {:induction false} Sorted(rows: Table)
    requires UniqueIds(rows)
    ensures Ordered(Sort(rows)) && |Sort(rows)| == |rows| && forall e :: e in Sort(rows) <==> e in rows
    decreases rows
  {
    if rows != {} {
      FirstExists(rows);
      var e := Sort(rows)[0];
      assert Sort(rows) == [e] + Sort(rows - {e});
      Sorted(rows - {e});
    }
  }

  /** There is only one way to put rows in order. */
  lemma {:induction false} OrderIsUnique(a: seq<Event>, b: seq<Event>)
    requires Ordered(a) && Ordered(b) && forall e :: e in a <==> e in b
    ensures a == b
  {
    if a == [] {
      assert forall i :: 0 <= i < |b| ==> b[i] in b;
    } else {
      assert a[0] in a;
      assert a[0] in b && b[0] in a;
      assert a[0] == b[0];
      forall e ensures e in a[1..] <==> e in b[1..] {
        assert e in a[1..] ==> e in a && Before(a[0], e);
        assert e in b[1..] ==> e in b && Before(b[0], e);
        assert e in a && e != a[0] ==> e in a[1..];
        assert e in b && e != b[0] ==> e in b[1..];
      }
      OrderIsUnique(a[1..], b[1..]);
    }
  }

  // ---- The query -------------------------------------------------------------------------

  function Matching(table: Table, f: Filter): Table {
    set e | e in table && Matches(e, f)
  }

  /** The cursor is looked up by id alone, whatever the filter. */
  ghost function CursorRow(table: Table, id: Id): (row: Option<Event>)
    ensures row.Some? ==> row.value in table && row.value.id == id
    ensures row.None? ==> forall e :: e in table ==> e.id != id
  {
    if exists c :: c in table && c.id == id then
      var c :| c in table && c.id == id;
      Some(c)
    else None
  }

  /** The matching rows from the cursor row on. */
  ghost function FromCursor(table: Table, f: Filter, cursor: Option<Id>): Table {
    if cursor.None? then Matching(table, f)
    else
      var row := CursorRow(table, cursor.value);
      if row.None? then {} else set e | e in Matching(table, f) && !Before(e, row.value)
  }

  function Take<T>(s: seq<T>, n: nat): seq<T> {
    s[..Min(n, |s|)]
  }

  /** With a cursor, `skip: 1` drops the first row of the answer, whichever row that is. */
  ghost function ListEvents(table: Table, f: Filter, take: nat, cursor: Option<Id>): seq<Event>
    requires UniqueIds(table)
  {
    var rows := Sort(FromCursor(table, f, cursor));
    Take(if cursor.Some? && rows != [] then rows[1..] else rows, take)
  }

  datatype Page = Page(events: seq<Event>, nextCursor: Option<Id>)

  /** The service cuts the extra row off and reports whether it was there. */
  function PageFrom(rows: seq<Event>, limit: nat): Page {
    var hasMore := |rows| > limit;
    var page := if hasMore then rows[..limit] else rows;
    Page(page, if hasMore && page != [] then Some(page[|page| - 1].id) else None)
  }

  /** listProjectEvents. */
  ghost function ListProjectEvents(table: Table, f: Filter, limit: nat, cursor: Option<Id>): Page
    requires UniqueIds(table)
  {
    PageFrom(ListEvents(table, f, limit + 1, cursor), limit)
  }

  // ---- What a cursor leaves ----------------------------------------------------------------

  /** Where a reader stands: before everything, or just past a row. */
  datatype Position = Start | After(row: Event)

  function CursorOf(p: Position): Option<Id> {
    if p.Start? then None else Some(p.row.id)
  }

  /** The matching rows still to come. */
  function Rest(table: Table, f: Filter, p: Position): Table {
    set e | e in table && Matches(e, f) && (p.After? ==> Before(p.row, e))
  }

  lemma SortFirst(rows: Table, c: Event, rest: Table)
    requires UniqueIds(rows) && rows == {c} + rest && forall e :: e in rest ==> Before(c, e)
    ensures Sort(rows) == [c] + Sort(rest)
  {
    Sorted(rows);
    Sorted(rest);
    OrderIsUnique(Sort(rows), [c] + Sort(rest));
  }

  /** From a row that matches, everything after it comes back; from one that does not, the first row
      after it is dropped in its place. */
  lemma FromCursorRow(table: Table, f: Filter, c: Event)
    requires UniqueIds(table) && c in table
    ensures Matches(c, f) ==> Sort(FromCursor(table, f, Some(c.id))) == [c] + Sort(Rest(table, f, After(c)))
    ensures !Matches(c, f) ==> FromCursor(table, f, Some(c.id)) == Rest(table, f, After(c))
  {
    var from, rest := FromCursor(table, f, Some(c.id)), Rest(table, f, After(c));
    assert CursorRow(table, c.id) == Some(c);
    if Matches(c, f) {
      assert from == {c} + rest;
      SortFirst(from, c, rest);
    }
  }

  /** A query with a cursor answers with the rows after it exactly when the cursor row itself matches
      the filter, or nothing that matches comes after it. */
  lemma CursorSkipsNothingIff(table: Table, f: Filter, take: nat, c: Event)
    requires UniqueIds(table) && c in table && take > 0
    ensures ListEvents(table, f, take, Some(c.id)) == Take(Sort(Rest(table, f, After(c))), take)
            <==> Matches(c, f) || Rest(table, f, After(c)) == {}
  {
    var s := Sort(Rest(table, f, After(c)));
    Sorted(Rest(table, f, After(c)));
    FromCursorRow(table, f, c);
    if Matches(c, f) {
      assert ([c] + s)[1..] == s;
    } else if s != [] {
      FirstIsMissed(s, take);
    }
  }

  lemma FirstIsMissed(s: seq<Event>, take: nat)
    requires Ordered(s) && s != [] && take > 0
    ensures Take(s[1..], take) != Take(s, take)
  {
    assert Take(s, take)[0] == s[0];
    if |s| > 1 {
      assert Take(s[1..], take)[0] == s[1] && Before(s[0], s[1]);
    }
  }

  ghost predicate GoodPosition(table: Table, f: Filter, p: Position) {
    p.After? ==> p.row in table && Matches(p.row, f)
  }

  lemma AnswerIsRest(table: Table, f: Filter, take: nat, p: Position)
    requires UniqueIds(table) && take > 0 && GoodPosition(table, f, p)
    ensures ListEvents(table, f, take, CursorOf(p)) == Take(Sort(Rest(table, f, p)), take)
  {
    if p.After? {
      CursorSkipsNothingIff(table, f, take, p.row);
    } else {
      assert FromCursor(table, f, None) == Rest(table, f, p);
    }
  }

  function PageOf(s: seq<Event>, limit: nat): Page
    requires limit >= 1
  {
    if |s| > limit then Page(s[..limit], Some(s[limit - 1].id)) else Page(s, None)
  }

  lemma OneRowTooMany(s: seq<Event>, limit: nat)
    requires limit >= 1
    ensures PageFrom(Take(s, limit + 1), limit) == PageOf(s, limit)
  {
    if |s| > limit {
      assert s[..limit + 1][..limit] == s[..limit];
    } else {
      assert s[..|s|] == s;
    }
  }

  lemma PageOfRest(table: Table, f: Filter, limit: nat, p: Position)
    requires UniqueIds(table) && limit >= 1 && GoodPosition(table, f, p)
    ensures ListProjectEvents(table, f, limit, CursorOf(p)) == PageOf(Sort(Rest(table, f, p)), limit)
  {
    AnswerIsRest(table, f, limit + 1, p);
    OneRowTooMany(Sort(Rest(table, f, p)), limit);
  }

  /** What a reader gets, by the columns: `e` is an event of the project and of the kind asked for, if any
      was; and `a` is shown above `b`. */
  ghost predicate Wanted(table: Table, f: Filter, e: Event) {
    e in table && e.project == f.project && (f.kind == None || f.kind == Some("") || f.kind == Some(e.kind))
  }

  predicate Above(a: Event, b: Event) {
    a.createdAt > b.createdAt || (a.createdAt == b.createdAt && a.id > b.id)
  }

  ghost predicate StillToCome(table: Table, f: Filter, p: Position, e: Event) {
    Wanted(table, f, e) && (p.After? ==> p.row.createdAt > e.createdAt || (p.row.createdAt == e.createdAt && p.row.id > e.id))
  }

  ghost predicate Newest(page: Page, limit: nat, coming: iset<Event>) {
    && |page.events| <= limit
    && (forall i, j :: 0 <= i < j < |page.events| ==> Above(page.events[i], page.events[j]))
    && (forall e :: e in page.events ==> e in coming)
    && (forall e, x :: e in page.events && x in coming && x !in page.events ==> Above(e, x))
    && (page.nextCursor.Some? <==> exists x :: x in coming && x !in page.events)
    && (page.nextCursor.Some? ==> |page.events| == limit && limit > 0 && page.nextCursor.value == page.events[limit - 1].id)
  }

  lemma FirstOnesAreNewest(s: seq<Event>, limit: nat)
    requires Ordered(s) && limit >= 1
    ensures Newest(PageOf(s, limit), limit, iset e | e in s)
  {
    var page := PageOf(s, limit);
    forall e, x | e in page.events && x in s && x !in page.events ensures Above(e, x) {
      var i :| 0 <= i < |page.events| && page.events[i] == e;
      var j :| 0 <= j < |s| && s[j] == x;
      assert s[i] == e && j >= |page.events|;
    }
    if |s| > limit {
      assert s[limit] in s && s[limit] !in page.events;
    }
  }

  lemma RestIsStillToCome(table: Table, f: Filter, p: Position)
    requires UniqueIds(table)
    ensures Ordered(Sort(Rest(table, f, p)))
    ensures (iset e | e in Sort(Rest(table, f, p))) == iset e | StillToCome(table, f, p, e)
  {
    var rest := Rest(table, f, p);
    Sorted(rest);
    forall e: Event ensures e in rest <==> StillToCome(table, f, p, e) {
    }
  }

  /** A page shows the newest events still to come, newest first and never more than the limit; it has a
      cursor exactly when some are left, and then it is full and the cursor is its last event. */
  lemma PageShowsNewest(table: Table, f: Filter, limit: nat, p: Position)
    requires UniqueIds(table) && limit >= 1 && GoodPosition(table, f, p)
    ensures Newest(ListProjectEvents(table, f, limit, CursorOf(p)), limit, iset e | StillToCome(table, f, p, e))
  {
    PageOfRest(table, f, limit, p);
    RestIsStillToCome(table, f, p);
    FirstOnesAreNewest(Sort(Rest(table, f, p)), limit);
  }

  lemma {:induction false} OrderedTail(s: seq<Event>, n: nat, e: Event)
    requires Ordered(s) && 0 < n < |s|
    ensures e in s[n..] <==> e in s && Before(s[n - 1], e)
  {
    if e in s {
      var i :| 0 <= i < |s| && s[i] == e;
      if i >= n {
        assert s[n..][i - n] == e;
      }
    }
  }

  /** What follows a page is what follows its last row. */
  lemma RestAfterPage(table: Table, f: Filter, limit: nat, p: Position)
    requires UniqueIds(table) && limit >= 1 && GoodPosition(table, f, p) && |Sort(Rest(table, f, p))| > limit
    ensures var s := Sort(Rest(table, f, p));
            && GoodPosition(table, f, After(s[limit - 1]))
            && Sort(Rest(table, f, After(s[limit - 1]))) == s[limit..]
  {
    Sorted(Rest(table, f, p));
    var s := Sort(Rest(table, f, p));
    var last := s[limit - 1];
    assert last in s;
    forall e ensures e in s[limit..] <==> e in Rest(table, f, After(last)) {
      OrderedTail(s, limit, e);
    }
    Sorted(Rest(table, f, After(last)));
    OrderIsUnique(Sort(Rest(table, f, After(last))), s[limit..]);
  }

  // ---- A walk ----------------------------------------------------------------------------

  /** Follows nextCursor; the i-th page is read from the i-th of the given tables. */
  ghost function Walk(tables: seq<Table>, f: Filter, limit: nat, cursor: Option<Id>): seq<Event>
    requires AllUnique(tables)
  {
    if tables == [] then []
    else
      var p := ListProjectEvents(tables[0], f, limit, cursor);
      p.events + if p.nextCursor.None? then [] else Walk(tables[1..], f, limit, p.nextCursor)
  }

  /** The walk reaches a page without a next cursor before the tables run out. */
  ghost predicate Ends(tables: seq<Table>, f: Filter, limit: nat, cursor: Option<Id>)
    requires AllUnique(tables)
  {
    tables != [] &&
      var p := ListProjectEvents(tables[0], f, limit, cursor);
      p.nextCursor.Some? ==> Ends(tables[1..], f, limit, p.nextCursor)
  }

  /** Between two pages rows are only added, and those that match sort before the cursor. */
  ghost predicate GrowsInFront(tables: seq<Table>, f: Filter, limit: nat, cursor: Option<Id>)
    requires AllUnique(tables)
  {
    |tables| >= 2 ==>
      var p := ListProjectEvents(tables[0], f, limit, cursor);
      p.nextCursor.Some? ==>
        && tables[0] <= tables[1]
        && (forall e, c :: e in tables[1] - tables[0] && Matches(e, f) && c in tables[0] && c.id == p.nextCursor.value ==> Before(e, c))
        && GrowsInFront(tables[1..], f, limit, p.nextCursor)
  }

  lemma GrowthKeepsRest(before: Table, after: Table, f: Filter, c: Event)
    requires before <= after && c in before && Matches(c, f)
    requires forall e :: e in after - before && Matches(e, f) ==> Before(e, c)
    ensures Rest(after, f, After(c)) == Rest(before, f, After(c)) && GoodPosition(after, f, After(c))
  {
  }

  /** One turn of the walk, from the page it reads. */
  lemma WalkTurn(tables: seq<Table>, f: Filter, limit: nat, cursor: Option<Id>, page: Page)
    requires AllUnique(tables) && tables != [] && page == ListProjectEvents(tables[0], f, limit, cursor)
    ensures page.nextCursor.None? ==> Walk(tables, f, limit, cursor) == page.events && Ends(tables, f, limit, cursor)
    ensures page.nextCursor.Some? ==>
              && Walk(tables, f, limit, cursor) == page.events + Walk(tables[1..], f, limit, page.nextCursor)
              && (Ends(tables, f, limit, cursor) <==> Ends(tables[1..], f, limit, page.nextCursor))
  {
  }

  /** What is still to come after a page, when more rows have arrived in front of its cursor. */
  lemma RestInNextTable(tables: seq<Table>, f: Filter, limit: nat, p: Position, c: Event)
    requires AllUnique(tables) && |tables| >= 2 && limit >= 1 && c in tables[0] && Matches(c, f)
    requires GrowsInFront(tables, f, limit, CursorOf(p))
    requires ListProjectEvents(tables[0], f, limit, CursorOf(p)).nextCursor == Some(c.id)
    ensures GoodPosition(tables[1], f, After(c)) && Rest(tables[1], f, After(c)) == Rest(tables[0], f, After(c))
    ensures GrowsInFront(tables[1..], f, limit, Some(c.id))
  {
    GrowthKeepsRest(tables[0], tables[1], f, c);
  }

  lemma NextTurn(tables: seq<Table>, f: Filter, limit: nat, p: Position, s: seq<Event>)
    requires AllUnique(tables) && |tables| >= 2 && limit >= 1 && GoodPosition(tables[0], f, p)
    requires s == Sort(Rest(tables[0], f, p)) && |s| > limit && GrowsInFront(tables, f, limit, CursorOf(p))
    ensures var next, later := After(s[limit - 1]), tables[1..];
            && AllUnique(later) && later != [] && GoodPosition(later[0], f, next)
            && s[limit..] == Sort(Rest(later[0], f, next))
            && GrowsInFront(later, f, limit, CursorOf(next))
  {
    var c := s[limit - 1];
    Sorted(Rest(tables[0], f, p));
    assert c in s;
    PageOfRest(tables[0], f, limit, p);
    RestAfterPage(tables[0], f, limit, p);
    RestInNextTable(tables, f, limit, p, c);
    assert tables[1..][0] == tables[1];
  }

  /** How many rows `n` pages can hold. */
  function RoomFor(n: nat, limit: nat): nat {
    if n == 0 then 0 else limit + RoomFor(n - 1, limit)
  }

  lemma RoomForOneLess(tables: seq<Table>, limit: nat, room: nat)
    requires tables != [] && room == RoomFor(|tables|, limit)
    ensures room >= limit && room - limit == RoomFor(|tables[1..]|, limit)
    ensures room > limit ==> |tables| >= 2
  {
  }

  lemma {:induction false} RoomIsProduct(n: nat, limit: nat)
    ensures RoomFor(n, limit) == n * limit
  {
    if n > 0 {
      RoomIsProduct(n - 1, limit);
      assert n * limit == (n - 1) * limit + limit;
    }
  }

  ghost predicate Covers(tables: seq<Table>, f: Filter, limit: nat, cursor: Option<Id>, s: seq<Event>)
    requires AllUnique(tables)
  {
    Ends(tables, f, limit, cursor) && Walk(tables, f, limit, cursor) == s
  }

  lemma CoversOneMore(tables: seq<Table>, f: Filter, limit: nat, p: Position, s: seq<Event>)
    requires AllUnique(tables) && tables != [] && limit >= 1 && |s| > limit
    requires ListProjectEvents(tables[0], f, limit, CursorOf(p)) == PageOf(s, limit)
    requires Covers(tables[1..], f, limit, Some(s[limit - 1].id), s[limit..])
    ensures Covers(tables, f, limit, CursorOf(p), s)
  {
    WalkTurn(tables, f, limit, CursorOf(p), PageOf(s, limit));
    assert s == s[..limit] + s[limit..];
  }

  lemma CoversLast(tables: seq<Table>, f: Filter, limit: nat, p: Position, s: seq<Event>)
    requires AllUnique(tables) && tables != [] && limit >= 1 && |s| <= limit
    requires ListProjectEvents(tables[0], f, limit, CursorOf(p)) == PageOf(s, limit)
    ensures Covers(tables, f, limit, CursorOf(p), s)
  {
  }

  lemma {:induction false} WalkFrom(tables: seq<Table>, f: Filter, limit: nat, p: Position, s: seq<Event>, room: nat)
    requires AllUnique(tables) && limit >= 1 && tables != [] && GoodPosition(tables[0], f, p)
    requires s == Sort(Rest(tables[0], f, p)) && |s| <= room == RoomFor(|tables|, limit)
    requires GrowsInFront(tables, f, limit, CursorOf(p))
    ensures Covers(tables, f, limit, CursorOf(p), s)
  {
    PageOfRest(tables[0], f, limit, p);
    if |s| > limit {
      RoomForOneLess(tables, limit, room);
      NextTurn(tables, f, limit, p, s);
      WalkFrom(tables[1..], f, limit, After(s[limit - 1]), s[limit..], room - limit);
      CoversOneMore(tables, f, limit, p, s);
    } else {
      CoversLast(tables, f, limit, p, s);
    }
  }

  /** Following nextCursor from the start ends, and the pages together are the whole filtered list in
      order, each event once, even if newer events keep arriving in front of the cursor meanwhile. */
  lemma WalkCoversExactlyOnce(tables: seq<Table>, f: Filter, limit: nat)
    requires AllUnique(tables)
    requires limit >= 1 && tables != [] && |Matching(tables[0], f)| <= |tables| * limit
    requires GrowsInFront(tables, f, limit, None)
    ensures Ends(tables, f, limit, None)
    ensures var walk := Walk(tables, f, limit, None);
            && Ordered(walk) && (forall e :: e in walk <==> e in Matching(tables[0], f))
            && |walk| == |Matching(tables[0], f)|
            && (forall i, j :: 0 <= i < j < |walk| ==> Above(walk[i], walk[j]))
            && (forall e :: e in walk <==> Wanted(tables[0], f, e))
  {
    assert Rest(tables[0], f, Start) == Matching(tables[0], f);
    Sorted(Matching(tables[0], f));
    RoomIsProduct(|tables|, limit);
    WalkFrom(tables, f, limit, Start, Sort(Matching(tables[0], f)), RoomFor(|tables|, limit));
  }
}
