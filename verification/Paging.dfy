/**
 Keyset paging of a session's events, and the bounded report that follows the pages.

 The table is a list in no particular order; a query filters it by the cursor, sorts it by timestamp
 and event id, and limits it.  Main results: `PagesAreComplete` (following the cursors gives all the
 session's events in order, none lost, none repeated), `LivePagesLoseNothing` (also while rows arrive)
 and `BuildSessionReport` (the first 10000, and a truncation flag that is exact).
 */
module Paging {
  import opened Options
  import opened TextOrder

  const MAX_REPLAY_LIMIT: nat := 500
  const MAX_REPORT_PAGES: nat := 20

  /** An event row: its place in the order, and what is shown of it. */
  datatype Event = Event(key: Key, shown: string)

  datatype Page = Page(events: seq<Event>, hasMore: bool, next: Option<Key>)

  // ---------------------------------------------------------------------------------------------
  // The query.
  // ---------------------------------------------------------------------------------------------

  predicate After(e: Event, cursor: Option<Key>) {
    cursor.None? || Before(cursor.value, e.key)
  }

  function Rows(table: seq<Event>, cursor: Option<Key>): seq<Event> {
    if table == [] then []
    else if After(table[0], cursor) then [table[0]] + Rows(table[1..], cursor)
    else Rows(table[1..], cursor)
  }

  function Insert(e: Event, s: seq<Event>): seq<Event> {
    if s == [] || Before(e.key, s[0].key) then [e] + s else [s[0]] + Insert(e, s[1..])
  }

  /** ORDER BY timestamp, event_id. */
  function Sort(s: seq<Event>): seq<Event> {
    if s == [] then [] else Insert(s[0], Sort(s[1..]))
  }

  function Limited(s: seq<Event>, n: nat): seq<Event> {
    if |s| <= n then s else s[..n]
  }

  function Fetch(table: seq<Event>, cursor: Option<Key>, n: nat): seq<Event> {
    Limited(Sort(Rows(table, cursor)), n)
  }

  /** One page: one row more than asked is fetched to see whether there is more. */
  function EventsPage(table: seq<Event>, cursor: Option<Key>, limit: nat): Page
    requires 0 < limit
  {
    var rows := Fetch(table, cursor, limit + 1);
    var hasMore := |rows| > limit;
    var shown := if hasMore then rows[..limit] else rows;
    Page(shown, hasMore, if hasMore then Some(shown[|shown| - 1].key) else None)
  }

  // ---------------------------------------------------------------------------------------------
  // Sorting.
  // ---------------------------------------------------------------------------------------------

  predicate Ordered(s: seq<Event>) {
    forall i, j :: 0 <= i < j < |s| ==> Before(s[i].key, s[j].key)
  }

  /** Event ids are a primary key, so no two rows have the same place. */
  predicate DistinctKeys(s: seq<Event>) {
    forall i, j :: 0 <= i < j < |s| ==> s[i].key != s[j].key
  }

  lemma {:induction false} InsertHolds(e: Event, s: seq<Event>)
    ensures multiset(Insert(e, s)) == multiset(s) + multiset{e}
  {
    if s != [] && !Before(e.key, s[0].key) {
      InsertHolds(e, s[1..]);
      assert s == [s[0]] + s[1..];
    }
  }

  lemma {:induction false} InsertOrdered(e: Event, s: seq<Event>)
    requires Ordered(s) && forall k :: 0 <= k < |s| ==> s[k].key != e.key
    ensures Ordered(Insert(e, s))
  {
    if s == [] {
    } else if Before(e.key, s[0].key) {
      FrontOrdered(e, s);
    } else {
      BeforeTotal(e.key, s[0].key);
      InsertOrdered(e, s[1..]);
      InsertHolds(e, s[1..]);
      var rest := Insert(e, s[1..]);
      forall k | 0 <= k < |rest| ensures Before(s[0].key, rest[k].key) {
        assert rest[k] in multiset(rest);
        assert rest[k] == e || rest[k] in s[1..];
      }
    }
  }

  lemma FrontOrdered(e: Event, s: seq<Event>)
    requires s != [] && Ordered(s) && Before(e.key, s[0].key)
    ensures Ordered([e] + s)
  {
    forall k | 0 <= k < |s| ensures Before(e.key, s[k].key) {
      if k > 0 { BeforeTransitive(e.key, s[0].key, s[k].key); }
    }
  }

  /** Sorting orders the rows and keeps every one of them, once. */
  lemma {:induction false} SortSorts(s: seq<Event>)
    requires DistinctKeys(s)
    ensures Ordered(Sort(s)) && multiset(Sort(s)) == multiset(s) && |Sort(s)| == |s|
  {
    if s != [] {
      var rest := Sort(s[1..]);
      SortSorts(s[1..]);
      assert s == [s[0]] + s[1..];
      forall k | 0 <= k < |rest| ensures rest[k].key != s[0].key {
        assert rest[k] in multiset(rest);
        assert rest[k] in s[1..];
      }
      InsertOrdered(s[0], rest);
      InsertHolds(s[0], rest);
      assert |Sort(s)| == |multiset(Sort(s))|;
    }
  }

  // ---------------------------------------------------------------------------------------------
  // Filtering before sorting is sorting and then dropping what is not after the cursor.
  // ---------------------------------------------------------------------------------------------

  lemma {:induction false} RowsInsert(e: Event, s: seq<Event>, cursor: Option<Key>)
    requires Ordered(s)
    ensures Rows(Insert(e, s), cursor) == if After(e, cursor) then Insert(e, Rows(s, cursor)) else Rows(s, cursor)
  {
    if s == [] {
      assert ([e] + s)[1..] == s;
    } else if Before(e.key, s[0].key) {
      assert ([e] + s)[1..] == s;
      if After(e, cursor) { RowsAllAfter(e, s, cursor); }
    } else {
      var rest := Insert(e, s[1..]);
      assert ([s[0]] + rest)[1..] == rest;
      RowsInsert(e, s[1..], cursor);
      if After(s[0], cursor) {
        BeforeTotal(e.key, s[0].key);
        if cursor.Some? && s[0].key != e.key { BeforeTransitive(cursor.value, s[0].key, e.key); }
        assert ([s[0]] + Rows(s[1..], cursor))[1..] == Rows(s[1..], cursor);
      }
    }
  }

  /** If a row that comes first is after the cursor, so are all the others. */
  lemma {:induction false} RowsAllAfter(e: Event, s: seq<Event>, cursor: Option<Key>)
    requires After(e, cursor) && Ordered(s) && (s != [] ==> Before(e.key, s[0].key))
    ensures Rows(s, cursor) == s
    decreases |s|
  {
    if s != [] {
      if cursor.Some? { BeforeTransitive(cursor.value, e.key, s[0].key); }
      RowsAllAfter(s[0], s[1..], cursor);
      assert s == [s[0]] + s[1..];
    }
  }

  lemma {:induction false} SortRows(s: seq<Event>, cursor: Option<Key>)
    requires DistinctKeys(s)
    ensures Sort(Rows(s, cursor)) == Rows(Sort(s), cursor)
  {
    if s != [] {
      SortRows(s[1..], cursor);
      SortSorts(s[1..]);
      RowsInsert(s[0], Sort(s[1..]), cursor);
      assert ([s[0]] + Rows(s[1..], cursor))[1..] == Rows(s[1..], cursor);
    }
  }

  lemma {:induction false} RowsFromStart(s: seq<Event>)
    ensures Rows(s, None) == s
  {
    if s != [] {
      RowsFromStart(s[1..]);
      assert s == [s[0]] + s[1..];
    }
  }

  /** Of an ordered list, what is after its i-th element is the rest of the list. */
  lemma {:induction false} RowsAfterElement(s: seq<Event>, i: nat)
    requires Ordered(s) && i < |s|
    ensures Rows(s, Some(s[i].key)) == s[i + 1..]
  {
    var cursor := Some(s[i].key);
    BeforeTotal(s[i].key, s[0].key);
    if i == 0 {
      if |s| > 1 { RowsAllAfter(s[1], s[2..], cursor); assert s[1..] == [s[1]] + s[2..]; }
    } else {
      assert Before(s[0].key, s[i].key);
      RowsAfterElement(s[1..], i - 1);
      assert s[1..][i - 1] == s[i] && s[1..][i..] == s[i + 1..];
    }
  }

  // ---------------------------------------------------------------------------------------------
  // Pages.
  // ---------------------------------------------------------------------------------------------

  /** The cursor before position i of the ordered events: none at the start, else the event before. */
  function CursorAt(all: seq<Event>, i: nat): Option<Key>
    requires i <= |all|
  {
    if i == 0 then None else Some(all[i - 1].key)
  }

  lemma FetchAt(table: seq<Event>, i: nat, n: nat)
    requires DistinctKeys(table) && i <= |Sort(table)|
    ensures Fetch(table, CursorAt(Sort(table), i), n) == Limited(Sort(table)[i..], n)
  {
    var all := Sort(table);
    SortSorts(table);
    SortRows(table, CursorAt(all, i));
    if i == 0 {
      RowsFromStart(all);
      assert all[0..] == all;
    } else {
      RowsAfterElement(all, i - 1);
    }
  }

  function End(n: nat, i: nat, limit: nat): (j: nat)
    requires i <= n
    ensures i <= j <= n
  {
    if n - i <= limit then n else i + limit
  }

  /** The page that shows the next `limit` of these events from position i. */
  function PageFrom(all: seq<Event>, i: nat, limit: nat): Page
    requires i <= |all|
  {
    var j := End(|all|, i, limit);
    Page(all[i..j], j < |all|, if j < |all| then CursorAt(all, j) else None)
  }

  /** The page at position i holds the next events in order, and its cursor is the position after them. */
  lemma {:induction false} PageAt(table: seq<Event>, i: nat, limit: nat)
    requires DistinctKeys(table) && i <= |Sort(table)| && 0 < limit
    ensures EventsPage(table, CursorAt(Sort(table), i), limit) == PageFrom(Sort(table), i, limit)
  {
    FetchAt(table, i, limit + 1);
    LimitedSlice(Sort(table), i, limit);
    PageOf(table, CursorAt(Sort(table), i), limit, Limited(Sort(table)[i..], limit + 1));
  }

  /** A page from the rows fetched for it. */
  lemma PageOf(table: seq<Event>, cursor: Option<Key>, limit: nat, rows: seq<Event>)
    requires 0 < limit && Fetch(table, cursor, limit + 1) == rows
    ensures EventsPage(table, cursor, limit) ==
      if |rows| > limit then Page(rows[..limit], true, Some(rows[limit - 1].key)) else Page(rows, false, None)
  {
  }

  lemma LimitedSlice(all: seq<Event>, i: nat, limit: nat)
    requires i <= |all| && 0 < limit
    ensures var rows, j := Limited(all[i..], limit + 1), End(|all|, i, limit);
      && (|rows| > limit <==> j < |all|)
      && (|rows| > limit ==> rows[..limit] == all[i..j] && rows[limit - 1] == all[j - 1])
      && (|rows| <= limit ==> rows == all[i..j])
  {
  }

  /** All events from a cursor on, page after page, for at most so many pages. */
  function Follow(source: Option<Key> -> Page, cursor: Option<Key>, pages: nat): seq<Event>
    decreases pages
  {
    if pages == 0 then []
    else
      var p := source(cursor);
      p.events + if p.next.None? then [] else Follow(source, p.next, pages - 1)
  }

  function FollowPages(table: seq<Event>, limit: nat, pages: nat): seq<Event>
    requires 0 < limit
  {
    Follow((c: Option<Key>) => EventsPage(table, c, limit), None, pages)
  }

  /** Asked from position k, the source gives the page from there. */
  predicate Serves(source: Option<Key> -> Page, all: seq<Event>, limit: nat, k: nat) {
    k <= |all| ==> source(CursorAt(all, k)) == PageFrom(all, k, limit)
  }

  lemma {:induction false} FollowAt(source: Option<Key> -> Page, all: seq<Event>, i: nat, limit: nat, pages: nat)
    requires i <= |all| && 0 < limit && pages > |all| - i
    requires forall k: nat :: Serves(source, all, limit, k)
    ensures Follow(source, CursorAt(all, i), pages) == all[i..]
    decreases pages
  {
    var j := End(|all|, i, limit);
    assert Serves(source, all, limit, i);
    FollowStep(source, CursorAt(all, i), pages, PageFrom(all, i, limit));
    if j < |all| { FollowAt(source, all, j, limit, pages - 1); }
    SliceJoin(all, i, j);
  }

  /** Following the pages, one page on. */
  lemma FollowStep(source: Option<Key> -> Page, cursor: Option<Key>, pages: nat, p: Page)
    requires pages > 0 && source(cursor) == p
    ensures Follow(source, cursor, pages) == p.events + if p.next.None? then [] else Follow(source, p.next, pages - 1)
  {
  }

  lemma SliceJoin(all: seq<Event>, i: nat, j: nat)
    requires i <= j <= |all|
    ensures all[i..j] + all[j..] == all[i..]
    ensures j == |all| ==> all[i..j] + [] == all[i..]
  {
  }

  /**
   Following the cursors to the end gives the session's events in (timestamp, event id) order, with the
   same contents as the table, none lost and none repeated, whatever the page size.
   */
  lemma PagesAreComplete(table: seq<Event>, limit: nat, pages: nat)
    requires DistinctKeys(table) && 0 < limit && pages > |table|
    ensures var got := FollowPages(table, limit, pages);
      Ordered(got) && multiset(got) == multiset(table)
  {
    var all, source := Sort(table), (c: Option<Key>) => EventsPage(table, c, limit);
    SortSorts(table);
    forall k: nat ensures Serves(source, all, limit, k) {
      if k <= |all| { PageAt(table, k, limit); }
    }
    FollowAt(source, all, 0, limit, pages);
    assert all[0..] == all;
  }

  // ---------------------------------------------------------------------------------------------
  // Rows arriving between pages.
  // ---------------------------------------------------------------------------------------------

  /** What one page says of its table: the next rows in order, and a cursor after which everything else comes. */
  lemma {:induction false} PageFacts(table: seq<Event>, cursor: Option<Key>, limit: nat)
    requires DistinctKeys(table) && 0 < limit
    ensures var p := EventsPage(table, cursor, limit);
      && Ordered(p.events)
      && (forall e :: e in p.events ==> e in table && After(e, cursor))
      && (forall e :: e in table && After(e, cursor) ==> e in p.events || (p.next.Some? && After(e, p.next)))
      && (p.next.Some? ==> p.events != [] && p.next.value == p.events[|p.events| - 1].key)
  {
    var rows := Rows(table, cursor);
    RowsExact(table, cursor);
    RowsDistinct(table, cursor);
    SortSorts(rows);
    SortMembers(rows);
    FirstOf(Sort(rows), limit);
  }

  lemma {:induction false} RowsExact(table: seq<Event>, cursor: Option<Key>)
    ensures forall e :: e in Rows(table, cursor) <==> e in table && After(e, cursor)
  {
    if table != [] {
      RowsExact(table[1..], cursor);
      assert table == [table[0]] + table[1..];
    }
  }

  lemma {:induction false} RowsDistinct(table: seq<Event>, cursor: Option<Key>)
    requires DistinctKeys(table)
    ensures DistinctKeys(Rows(table, cursor))
  {
    if table != [] {
      var rest := Rows(table[1..], cursor);
      RowsDistinct(table[1..], cursor);
      RowsExact(table[1..], cursor);
      forall k | 0 <= k < |rest| ensures rest[k].key != table[0].key {
        assert rest[k] in table[1..];
        var m :| 0 <= m < |table[1..]| && table[1..][m] == rest[k];
        assert table[m + 1] == rest[k];
      }
    }
  }

  lemma SortMembers(s: seq<Event>)
    requires multiset(Sort(s)) == multiset(s)
    ensures forall e :: e in Sort(s) <==> e in s
  {
    forall e ensures e in Sort(s) <==> e in s {
      assert e in Sort(s) <==> e in multiset(Sort(s));
      assert e in s <==> e in multiset(s);
    }
  }

  /** The first rows of an ordered list: the others come after the last of them. */
  lemma FirstOf(all: seq<Event>, limit: nat)
    requires Ordered(all) && 0 < limit
    ensures var rows := Limited(all, limit + 1);
      var shown := if |rows| > limit then rows[..limit] else rows;
      && Ordered(shown) && (forall e :: e in shown ==> e in all)
      && (forall e :: e in all ==> e in shown || (|rows| > limit && Before(shown[|shown| - 1].key, e.key)))
  {
    var rows := Limited(all, limit + 1);
    var shown := if |rows| > limit then rows[..limit] else rows;
    assert shown == all[..|shown|];
    forall e | e in all ensures e in shown || (|rows| > limit && Before(shown[|shown| - 1].key, e.key)) {
      var k :| 0 <= k < |all| && all[k] == e;
      if k < |shown| { assert shown[k] == e; }
    }
  }

  /** The pages read one after another, each from the table as it is then; `ended` when the last one has no cursor. */
  datatype Reading = Reading(events: seq<Event>, ended: bool)

  function FollowLive(tables: seq<seq<Event>>, cursor: Option<Key>, limit: nat): Reading
    requires 0 < limit
    decreases |tables|
  {
    if tables == [] then Reading([], false)
    else
      var p := EventsPage(tables[0], cursor, limit);
      if p.next.None? then Reading(p.events, true)
      else
        var rest := FollowLive(tables[1..], p.next, limit);
        Reading(p.events + rest.events, rest.ended)
  }

  predicate Contained(a: seq<Event>, b: seq<Event>) {
    forall e :: e in a ==> e in b
  }

  /** Rows are only inserted: every later table holds what an earlier one held. */
  predicate OnlyGrows(tables: seq<seq<Event>>) {
    forall i, j :: 0 <= i <= j < |tables| ==> Contained(tables[i], tables[j])
  }

  lemma TailGrows(tables: seq<seq<Event>>)
    requires tables != [] && OnlyGrows(tables)
    ensures OnlyGrows(tables[1..])
  {
    var later := tables[1..];
    forall i, j | 0 <= i <= j < |later| ensures Contained(later[i], later[j]) {
      assert Contained(tables[i + 1], tables[j + 1]);
    }
  }

  /** Read in order, without repetition, from stored rows after the cursor; and, if ended, with every row after it that was there at first. */
  predicate ReadsWell(got: Reading, tables: seq<seq<Event>>, cursor: Option<Key>)
    requires tables != []
  {
    && Ordered(got.events)
    && (forall e :: e in got.events ==> After(e, cursor))
    && Contained(got.events, tables[|tables| - 1])
    && (got.ended ==> forall e :: e in tables[0] && After(e, cursor) ==> e in got.events)
  }

  /**
   Paging while rows are inserted: what is read is in order, nothing is repeated, everything read is a
   stored row, and when the pages end every row that was there at the start has been read.
   */
  lemma {:induction false} LivePagesLoseNothing(tables: seq<seq<Event>>, cursor: Option<Key>, limit: nat)
    requires 0 < limit && tables != [] && OnlyGrows(tables) && forall k :: 0 <= k < |tables| ==> DistinctKeys(tables[k])
    ensures ReadsWell(FollowLive(tables, cursor, limit), tables, cursor)
    decreases |tables|
  {
    var p := EventsPage(tables[0], cursor, limit);
    PageFacts(tables[0], cursor, limit);
    assert Contained(tables[0], tables[|tables| - 1]);
    if p.next.Some? {
      if |tables| > 1 {
        TailGrows(tables);
        LivePagesLoseNothing(tables[1..], p.next, limit);
        PageThenRest(tables, cursor, limit);
      } else {
        OnlyPage(tables, cursor, limit);
      }
    }
  }

  lemma OnlyPage(tables: seq<seq<Event>>, cursor: Option<Key>, limit: nat)
    requires 0 < limit && |tables| == 1 && DistinctKeys(tables[0]) && EventsPage(tables[0], cursor, limit).next.Some?
    ensures ReadsWell(FollowLive(tables, cursor, limit), tables, cursor)
  {
    var p := EventsPage(tables[0], cursor, limit);
    PageFacts(tables[0], cursor, limit);
    assert tables[1..] == [] && FollowLive([], p.next, limit) == Reading([], false);
    assert p.events + [] == p.events;
  }

  /** While the pages have not ended, each brings `limit` events. */
  lemma {:induction false} UnendedIsFull(tables: seq<seq<Event>>, cursor: Option<Key>, limit: nat)
    requires 0 < limit
    ensures var got := FollowLive(tables, cursor, limit);
      !got.ended ==> |got.events| == limit * |tables|
    decreases |tables|
  {
    if tables != [] {
      var next := EventsPage(tables[0], cursor, limit).next;
      FullPage(tables[0], cursor, limit);
      if next.Some? {
        UnendedIsFull(tables[1..], next, limit);
        OneMore(limit, |tables|);
      }
    }
  }

  lemma FullPage(table: seq<Event>, cursor: Option<Key>, limit: nat)
    requires 0 < limit
    ensures EventsPage(table, cursor, limit).next.Some? ==> |EventsPage(table, cursor, limit).events| == limit
  {
  }

  lemma OneMore(limit: nat, n: nat)
    requires n > 0
    ensures limit + limit * (n - 1) == limit * n
  {
  }

  lemma {:induction false} OrderedWithin(a: seq<Event>, b: seq<Event>)
    requires Ordered(a) && Contained(a, b)
    ensures |a| <= |b|
  {
    if a != [] {
      assert a[0] in b;
      var k :| 0 <= k < |b| && b[k] == a[0];
      var rest := b[..k] + b[k + 1..];
      forall e | e in a[1..] ensures e in rest {
        var i :| 0 <= i < |a[1..]| && a[1..][i] == e;
        assert a[i + 1] == e && Before(a[0].key, a[i + 1].key);
        BeforeTotal(a[0].key, a[i + 1].key);
        assert e in b && e != a[0];
        var m :| 0 <= m < |b| && b[m] == e;
        assert m != k;
        if m < k { assert rest[m] == e; } else { assert rest[m - 1] == e; }
      }
      OrderedWithin(a[1..], rest);
    }
  }

  /** Paging ends: as soon as more events could have been read than there are rows, the last page has said so. */
  lemma LivePagesEnd(tables: seq<seq<Event>>, cursor: Option<Key>, limit: nat)
    requires 0 < limit && tables != [] && OnlyGrows(tables) && forall k :: 0 <= k < |tables| ==> DistinctKeys(tables[k])
    requires limit * |tables| > |tables[|tables| - 1]|
    ensures FollowLive(tables, cursor, limit).ended
  {
    LivePagesLoseNothing(tables, cursor, limit);
    UnendedIsFull(tables, cursor, limit);
    OrderedWithin(FollowLive(tables, cursor, limit).events, tables[|tables| - 1]);
  }

  lemma PageThenRest(tables: seq<seq<Event>>, cursor: Option<Key>, limit: nat)
    requires 0 < limit && |tables| > 1 && OnlyGrows(tables) && DistinctKeys(tables[0])
    requires EventsPage(tables[0], cursor, limit).next.Some?
    requires var next := EventsPage(tables[0], cursor, limit).next;
      ReadsWell(FollowLive(tables[1..], next, limit), tables[1..], next)
    ensures ReadsWell(FollowLive(tables, cursor, limit), tables, cursor)
  {
    var p := EventsPage(tables[0], cursor, limit);
    var rest := FollowLive(tables[1..], p.next, limit);
    PageFacts(tables[0], cursor, limit);
    JoinOrdered(p.events, rest.events);
    LastIsAfter(p.events, cursor);
    assert Contained(tables[0], tables[1]) && Contained(tables[0], tables[|tables| - 1]);
  }

  lemma LastIsAfter(events: seq<Event>, cursor: Option<Key>)
    requires events != [] && forall e :: e in events ==> After(e, cursor)
    ensures forall e: Event :: Before(events[|events| - 1].key, e.key) ==> After(e, cursor)
  {
    var last := events[|events| - 1];
    assert last in events;
    forall e: Event | Before(last.key, e.key) ensures After(e, cursor) {
      if cursor.Some? { BeforeTransitive(cursor.value, last.key, e.key); }
    }
  }

  lemma JoinOrdered(a: seq<Event>, b: seq<Event>)
    requires a != [] && Ordered(a) && Ordered(b) && forall e :: e in b ==> Before(a[|a| - 1].key, e.key)
    ensures Ordered(a + b)
  {
    var last := a[|a| - 1];
    forall i, j | 0 <= i < |a| && 0 <= j < |b| ensures Before(a[i].key, b[j].key) {
      assert b[j] in b;
      if i < |a| - 1 { BeforeTransitive(a[i].key, last.key, b[j].key); }
    }
  }

  // ---------------------------------------------------------------------------------------------
  // The report.
  // ---------------------------------------------------------------------------------------------

  function Least(a: nat, b: nat): nat {
    if a <= b then a else b
  }

  /** The report holds exactly the first 10000 events in order, and says so exactly when there are more. */
  method BuildSessionReport(table: seq<Event>) returns (events: seq<Event>, truncated: bool)
    requires DistinctKeys(table)
    ensures |Sort(table)| == |table|
    ensures events == Sort(table)[..Least(|table|, 10000)]
    ensures truncated <==> |table| > 10000
  {
    SortSorts(table);
    ghost var all := Sort(table);
    ghost var at := 0;
    events, truncated := [], false;
    var cursor: Option<Key> := None;
    var page := 0;
    while page < MAX_REPORT_PAGES
      invariant page <= MAX_REPORT_PAGES && at == 500 * page <= |all|
      invariant events == all[..at] && cursor == CursorAt(all, at)
      invariant page > 0 ==> at < |all|
      invariant truncated <==> page == MAX_REPORT_PAGES
    {
      var p := EventsPage(table, cursor, MAX_REPLAY_LIMIT);
      PageAt(table, at, MAX_REPLAY_LIMIT);
      PrefixJoin(all, at, End(|all|, at, MAX_REPLAY_LIMIT));
      events := events + p.events;
      if !p.hasMore || p.next.None? {
        break;
      }
      cursor := p.next;
      at := at + MAX_REPLAY_LIMIT;
      if page == MAX_REPORT_PAGES - 1 {
        truncated := true;
      }
      page := page + 1;
    }
  }

  lemma PrefixJoin(all: seq<Event>, i: nat, j: nat)
    requires i <= j <= |all|
    ensures all[..i] + all[i..j] == all[..j]
    ensures j == |all| ==> all[..j] == all
  {
  }
}
