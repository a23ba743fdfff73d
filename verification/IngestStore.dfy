/**
 The event store's ingest path: at-least-once delivery, an append-only log with one row per event id,
 the session projection, and the incrementally maintained work_items table with its evictable cache.

 Main results: `ExactlyOnce` (repeated deliveries change nothing), `TableIsCanonical` (with events in
 canonical order, under any evictions and restarts, the table equals folding the whole history), and
 `RebuildRepairs` (exactly when a rebuild leaves the canonical rows, for every event that triggers it,
 early or late), with the two ways it can fail: `RebuildKeepsStrayRows` and `LateRebuildWritesStale`.
 */
module IngestStore {
  import opened Options
  import opened Hashing
  import opened TextOrder
  import opened WorkItems

  /** The session-state reducer, which this module treats as a black box. */
  datatype Reducer<!P> = Reducer(init: string -> P, apply: (P, Event) -> P)

  datatype RowKey = RowKey(session_id: string, work_item_id: string)

  /** The durable tables and the in-process cache. */
  datatype Store<!P> = Store(
    events: seq<Event>,
    projections: map<string, P>,
    workItems: map<RowKey, WorkItem>,
    cache: map<string, Projection>)

  function Empty<P>(): Store<P> {
    Store([], map[], map[], map[])
  }

  function KeyOf(ev: Event): Key {
    Key(ev.timestamp, ev.event_id)
  }

  predicate Stored(log: seq<Event>, id: string) {
    exists i :: 0 <= i < |log| && log[i].event_id == id
  }

  /** The session's events, in arrival order. */
  function OfSession(log: seq<Event>, sid: string): seq<Event> {
    if log == [] then []
    else
      var rest := OfSession(log[..|log| - 1], sid);
      if log[|log| - 1].session_id == sid then rest + [log[|log| - 1]] else rest
  }

  // ---------------------------------------------------------------------------------------------
  // Reading back in canonical order.
  // ---------------------------------------------------------------------------------------------

  function Insert(sorted: seq<Event>, ev: Event): seq<Event> {
    if sorted == [] then [ev]
    else if Before(KeyOf(ev), KeyOf(sorted[|sorted| - 1])) then
      Insert(sorted[..|sorted| - 1], ev) + [sorted[|sorted| - 1]]
    else sorted + [ev]
  }

  /** `ORDER BY timestamp ASC, event_id ASC`. */
  function Canonical(evs: seq<Event>): seq<Event> {
    if evs == [] then [] else Insert(Canonical(evs[..|evs| - 1]), evs[|evs| - 1])
  }

  /** The fold a rebuild computes from the log: the session's gated events in canonical order. */
  function Rebuilt(H: Sha256, log: seq<Event>, sid: string): Projection {
    Fold(H, sid, Canonical(Gated(OfSession(log, sid))))
  }

  // ---------------------------------------------------------------------------------------------
  // Writing rows.
  // ---------------------------------------------------------------------------------------------

  function UpsertRows(table: map<RowKey, WorkItem>, sid: string, items: seq<WorkItem>): map<RowKey, WorkItem> {
    if items == [] then table
    else
      var it := items[|items| - 1];
      UpsertRows(table, sid, items[..|items| - 1])[RowKey(sid, it.work_item_id) := it]
  }

  /** The items of `next` that differ from the item of the same id in `prev`. */
  function Changed(prev: seq<WorkItem>, next: seq<WorkItem>): seq<WorkItem> {
    if next == [] then []
    else
      var it, rest := next[|next| - 1], Changed(prev, next[..|next| - 1]);
      var k := Find(prev, it.work_item_id);
      if k < |prev| && prev[k] == it then rest else rest + [it]
  }

  /** The table's rows for a session are exactly the given items. */
  ghost predicate RowsAre(table: map<RowKey, WorkItem>, sid: string, items: seq<WorkItem>) {
    && (forall it :: it in items ==> RowKey(sid, it.work_item_id) in table && table[RowKey(sid, it.work_item_id)] == it)
    && (forall k :: k in table && k.session_id == sid ==> exists it :: it in items && it.work_item_id == k.work_item_id)
  }

  // ---------------------------------------------------------------------------------------------
  // Ingest.
  // ---------------------------------------------------------------------------------------------

  function ApplyIncremental<P>(H: Sha256, s: Store<P>, ev: Event): Store<P>
    requires s.events != [] && s.events[|s.events| - 1] == ev
  {
    var sid := ev.session_id;
    if sid in s.cache then
      var next := Apply(H, s.cache[sid], ev);
      s.(cache := s.cache[sid := next],
         workItems := UpsertRows(s.workItems, sid, Changed(s.cache[sid].items, next.items)))
    else
      var next := Apply(H, Rebuilt(H, s.events[..|s.events| - 1], sid), ev);
      s.(cache := s.cache[sid := next], workItems := UpsertRows(s.workItems, sid, next.items))
  }

  function Ingest<P>(R: Reducer<P>, H: Sha256, s: Store<P>, ev: Event): Store<P> {
    if Stored(s.events, ev.event_id) then s
    else
      var sid := ev.session_id;
      var prev := if sid in s.projections then s.projections[sid] else R.init(sid);
      var s' := s.(events := s.events + [ev], projections := s.projections[sid := R.apply(prev, ev)]);
      if IsFoldEvent(ev) then ApplyIncremental(H, s', ev) else s'
  }

  /** What can happen to a store: a delivery, a cache eviction, or a restart of the process. */
  datatype Step = Deliver(ev: Event) | Evict(sid: string) | Restart

  function Next<P>(R: Reducer<P>, H: Sha256, s: Store<P>, step: Step): Store<P> {
    match step
    case Deliver(ev) => Ingest(R, H, s, ev)
    case Evict(sid) => s.(cache := s.cache - {sid})
    case Restart => s.(cache := map[])
  }

  function Run<P>(R: Reducer<P>, H: Sha256, s: Store<P>, steps: seq<Step>): Store<P> {
    if steps == [] then s else Next(R, H, Run(R, H, s, steps[..|steps| - 1]), steps[|steps| - 1])
  }

  // ---------------------------------------------------------------------------------------------
  // Exactly once.
  // ---------------------------------------------------------------------------------------------

  predicate DeliversId(step: Step, id: string) {
    step.Deliver? && step.ev.event_id == id
  }

  /** The steps without repeated deliveries: only the first occurrence of each event id is kept. */
  function FirstOccurrences(steps: seq<Step>): seq<Step> {
    if steps == [] then []
    else
      var front, last := steps[..|steps| - 1], steps[|steps| - 1];
      var rest := FirstOccurrences(front);
      if last.Deliver? && (exists i :: 0 <= i < |front| && DeliversId(front[i], last.ev.event_id)) then rest
      else rest + [last]
  }

  lemma IngestLog<P>(R: Reducer<P>, H: Sha256, s: Store<P>, step: Step)
    ensures Next(R, H, s, step).events ==
      if step.Deliver? && !Stored(s.events, step.ev.event_id) then s.events + [step.ev] else s.events
  {
  }

  /** The log holds exactly the ids stored at the start and the ids delivered since. */
  lemma {:induction false} LogIds<P>(R: Reducer<P>, H: Sha256, s: Store<P>, steps: seq<Step>, id: string)
    ensures Stored(Run(R, H, s, steps).events, id) <==>
      (Stored(s.events, id) || exists i :: 0 <= i < |steps| && DeliversId(steps[i], id))
  {
    if steps != [] {
      var n := |steps| - 1;
      var mid := Run(R, H, s, steps[..n]);
      LogIds(R, H, s, steps[..n], id);
      IngestLog(R, H, mid, steps[n]);
      var log := Next(R, H, mid, steps[n]).events;
      if log != mid.events {
        StoredAppend(mid.events, steps[n].ev, id);
      }
      assert (exists i :: 0 <= i < |steps| && DeliversId(steps[i], id)) <==>
        ((exists i :: 0 <= i < n && DeliversId(steps[..n][i], id)) || DeliversId(steps[n], id)) by {
        if i :| 0 <= i < |steps| && DeliversId(steps[i], id) {
          assert i < n ==> DeliversId(steps[..n][i], id);
        }
      }
    }
  }

  lemma StoredAppend(log: seq<Event>, ev: Event, id: string)
    ensures Stored(log + [ev], id) <==> Stored(log, id) || ev.event_id == id
  {
    var longer := log + [ev];
    if Stored(longer, id) {
      var i :| 0 <= i < |longer| && longer[i].event_id == id;
      assert i < |log| ==> log[i].event_id == id;
    }
    if Stored(log, id) {
      var i :| 0 <= i < |log| && log[i].event_id == id;
      assert longer[i].event_id == id;
    }
    assert longer[|log|] == ev;
  }

  /**
   At-least-once delivery has exactly-once effect: for every interleaving of deliveries, evictions and
   restarts, from any store, dropping the repeated deliveries leaves the log, the session projections,
   the work items and the cache exactly the same.
   */
  lemma {:induction false} ExactlyOnce<P>(R: Reducer<P>, H: Sha256, s: Store<P>, steps: seq<Step>)
    ensures Run(R, H, s, FirstOccurrences(steps)) == Run(R, H, s, steps)
  {
    if steps != [] {
      var n := |steps| - 1;
      var front, last := steps[..n], steps[n];
      ExactlyOnce(R, H, s, front);
      if last.Deliver? && (exists i :: 0 <= i < |front| && DeliversId(front[i], last.ev.event_id)) {
        LogIds(R, H, s, front, last.ev.event_id);
      } else {
        assert FirstOccurrences(steps)[..|FirstOccurrences(steps)| - 1] == FirstOccurrences(front);
      }
    }
  }

  /** The events a run delivers, in order. */
  function Delivered(steps: seq<Step>): seq<Event> {
    if steps == [] then []
    else
      var front, last := Delivered(steps[..|steps| - 1]), steps[|steps| - 1];
      if last.Deliver? then front + [last.ev] else front
  }

  /** The log is exactly the first delivery of each event id, in order of arrival. */
  lemma {:induction false} LogIsFirstDeliveries<P>(R: Reducer<P>, H: Sha256, steps: seq<Step>)
    ensures Run(R, H, Empty(), steps).events == Delivered(FirstOccurrences(steps))
  {
    if steps != [] {
      var n := |steps| - 1;
      var front, last := steps[..n], steps[n];
      var mid := Run(R, H, Empty(), front);
      LogIsFirstDeliveries(R, H, front);
      IngestLog(R, H, mid, last);
      if last.Deliver? { LogIds(R, H, Empty(), front, last.ev.event_id); }
      if !(last.Deliver? && (exists i :: 0 <= i < |front| && DeliversId(front[i], last.ev.event_id))) {
        assert FirstOccurrences(steps)[..|FirstOccurrences(steps)| - 1] == FirstOccurrences(front);
      }
    }
  }

  /** The reducer over a list of events. */
  function Reduced<P>(R: Reducer<P>, sid: string, evs: seq<Event>): P {
    if evs == [] then R.init(sid) else R.apply(Reduced(R, sid, evs[..|evs| - 1]), evs[|evs| - 1])
  }

  ghost predicate Projected<P>(R: Reducer<P>, s: Store<P>, sid: string) {
    var evs := OfSession(s.events, sid);
    (sid in s.projections <==> evs != []) && (sid in s.projections ==> s.projections[sid] == Reduced(R, sid, evs))
  }

  lemma IngestProjects<P>(R: Reducer<P>, H: Sha256, s: Store<P>, ev: Event, sid: string)
    requires Projected(R, s, sid) && !Stored(s.events, ev.event_id)
    ensures Projected(R, Ingest(R, H, s, ev), sid)
  {
    IngestShape(R, H, s, ev);
    OfSessionSnoc(s.events, ev, sid);
    ReducedSnoc(R, sid, OfSession(s.events, sid), ev);
  }

  lemma IngestShape<P>(R: Reducer<P>, H: Sha256, s: Store<P>, ev: Event)
    requires !Stored(s.events, ev.event_id)
    ensures var s', sid := Ingest(R, H, s, ev), ev.session_id;
      && s'.events == s.events + [ev]
      && s'.projections == s.projections[sid := R.apply(if sid in s.projections then s.projections[sid] else R.init(sid), ev)]
  {
  }

  lemma OfSessionSnoc(log: seq<Event>, ev: Event, sid: string)
    ensures OfSession(log + [ev], sid) == if ev.session_id == sid then OfSession(log, sid) + [ev] else OfSession(log, sid)
  {
    assert (log + [ev])[..|log|] == log;
  }

  lemma ReducedSnoc<P>(R: Reducer<P>, sid: string, evs: seq<Event>, ev: Event)
    ensures Reduced(R, sid, evs + [ev]) == R.apply(Reduced(R, sid, evs), ev)
  {
    assert (evs + [ev])[..|evs|] == evs;
  }

  /** A session's projection is the reducer applied, once each, to the session's stored events in order of arrival. */
  lemma {:induction false} ProjectionIsReduced<P>(R: Reducer<P>, H: Sha256, steps: seq<Step>, sid: string)
    ensures Projected(R, Run(R, H, Empty(), steps), sid)
  {
    if steps != [] {
      var n := |steps| - 1;
      var mid := Run(R, H, Empty(), steps[..n]);
      ProjectionIsReduced(R, H, steps[..n], sid);
      if steps[n].Deliver? && !Stored(mid.events, steps[n].ev.event_id) {
        IngestProjects(R, H, mid, steps[n].ev, sid);
      }
    }
  }

  // ---------------------------------------------------------------------------------------------
  // Rows after an upsert.
  // ---------------------------------------------------------------------------------------------

  /** Row k of the new table is the item with its id, or, if there is none, what it was. */
  predicate RowExact(table: map<RowKey, WorkItem>, t: map<RowKey, WorkItem>, sid: string, items: seq<WorkItem>, k: RowKey) {
    if k.session_id == sid && Find(items, k.work_item_id) < |items| then
      k in t && t[k] == items[Find(items, k.work_item_id)]
    else (k in t <==> k in table) && (k in t ==> t[k] == table[k])
  }

  lemma {:induction false} UpsertRowsExact(table: map<RowKey, WorkItem>, sid: string, items: seq<WorkItem>, k: RowKey)
    requires DistinctIds(items)
    ensures RowExact(table, UpsertRows(table, sid, items), sid, items, k)
  {
    if items != [] {
      var n := |items| - 1;
      UpsertRowsExact(table, sid, items[..n], k);
      assert items == items[..n] + [items[n]];
      UpsertLast(table, UpsertRows(table, sid, items[..n]), sid, items[..n], items[n], k);
    }
  }

  lemma UpsertLast(table: map<RowKey, WorkItem>, t: map<RowKey, WorkItem>, sid: string, items: seq<WorkItem>, it: WorkItem, k: RowKey)
    requires RowExact(table, t, sid, items, k) && DistinctIds(items + [it])
    ensures RowExact(table, t[RowKey(sid, it.work_item_id) := it], sid, items + [it], k)
  {
    FindSnoc(items, it, k.work_item_id);
    var f := Find(items, k.work_item_id);
    if f < |items| {
      assert (items + [it])[f] == items[f] && (items + [it])[|items|] == it;
    }
  }

  lemma {:induction false} FindSnoc(items: seq<WorkItem>, it: WorkItem, id: string)
    ensures Find(items + [it], id) ==
      if Find(items, id) < |items| then Find(items, id)
      else if it.work_item_id == id then |items| else |items| + 1
  {
    if items == [] {
      assert [] + [it] == [it];
    } else {
      assert (items + [it])[1..] == items[1..] + [it];
      FindSnoc(items[1..], it, id);
    }
  }

  lemma {:induction false} ChangedExact(prev: seq<WorkItem>, next: seq<WorkItem>)
    requires DistinctIds(next)
    ensures DistinctIds(Changed(prev, next))
    ensures forall it :: it in Changed(prev, next) <==>
      it in next && !(Find(prev, it.work_item_id) < |prev| && prev[Find(prev, it.work_item_id)] == it)
  {
    if next != [] {
      var n := |next| - 1;
      ChangedExact(prev, next[..n]);
      assert next == next[..n] + [next[n]];
      var rest := Changed(prev, next[..n]);
      forall i | 0 <= i < |rest| ensures rest[i].work_item_id != next[n].work_item_id {
        assert rest[i] in next[..n];
      }
    }
  }

  lemma FindIs(items: seq<WorkItem>, it: WorkItem)
    requires DistinctIds(items) && it in items
    ensures Find(items, it.work_item_id) < |items| && items[Find(items, it.work_item_id)] == it
  {
  }

  lemma FindIn(items: seq<WorkItem>, id: string)
    ensures Find(items, id) < |items| <==> exists it :: it in items && it.work_item_id == id
  {
    if Find(items, id) < |items| {
      assert items[Find(items, id)] in items;
    }
  }

  /** Writing only the changed items is enough: the rows become the new items. */
  lemma RowsAfterIncrement(table: map<RowKey, WorkItem>, sid: string, prev: seq<WorkItem>, next: seq<WorkItem>)
    requires RowsAre(table, sid, prev) && DistinctIds(prev) && DistinctIds(next)
    requires Ids(prev) <= Ids(next)
    ensures RowsAre(UpsertRows(table, sid, Changed(prev, next)), sid, next)
  {
    var changed := Changed(prev, next);
    var t := UpsertRows(table, sid, changed);
    ChangedExact(prev, next);
    forall it | it in next ensures RowKey(sid, it.work_item_id) in t && t[RowKey(sid, it.work_item_id)] == it {
      UpsertRowsExact(table, sid, changed, RowKey(sid, it.work_item_id));
      FindIs(next, it);
      var f := Find(changed, it.work_item_id);
      if f < |changed| {
        assert changed[f] in next;
        FindIs(next, changed[f]);
      } else {
        assert it !in changed;
        assert prev[Find(prev, it.work_item_id)] in prev;
      }
    }
    forall k | k in t && k.session_id == sid ensures exists it :: it in next && it.work_item_id == k.work_item_id {
      UpsertRowsExact(table, sid, changed, k);
      var f := Find(changed, k.work_item_id);
      if f < |changed| {
        assert changed[f] in next;
      } else {
        var it :| it in prev && it.work_item_id == k.work_item_id;
        var i :| 0 <= i < |prev| && prev[i] == it;
        assert Ids(next)[i] == Ids(prev)[i];
        assert next[i] in next;
      }
    }
  }

  /** A full reconcile writes every item and leaves exactly the stray rows of the session behind. */
  lemma RowsAfterReconcile(table: map<RowKey, WorkItem>, sid: string, items: seq<WorkItem>)
    requires DistinctIds(items)
    ensures forall it :: it in items ==>
      RowKey(sid, it.work_item_id) in UpsertRows(table, sid, items)
      && UpsertRows(table, sid, items)[RowKey(sid, it.work_item_id)] == it
    ensures RowsAre(UpsertRows(table, sid, items), sid, items) <==>
      (forall k :: k in table && k.session_id == sid ==> exists it :: it in items && it.work_item_id == k.work_item_id)
  {
    var t := UpsertRows(table, sid, items);
    forall it | it in items ensures RowKey(sid, it.work_item_id) in t && t[RowKey(sid, it.work_item_id)] == it {
      UpsertRowsExact(table, sid, items, RowKey(sid, it.work_item_id));
      FindIs(items, it);
    }
    forall k: RowKey | k.session_id == sid
      ensures k in t <==> k in table || exists it :: it in items && it.work_item_id == k.work_item_id
    {
      UpsertRowsExact(table, sid, items, k);
      FindIn(items, k.work_item_id);
    }
  }

  /** Rows of other sessions are untouched by either write. */
  lemma OtherRowsKept(table: map<RowKey, WorkItem>, sid: string, items: seq<WorkItem>, other: string, rows: seq<WorkItem>)
    requires DistinctIds(items) && other != sid && RowsAre(table, other, rows)
    ensures RowsAre(UpsertRows(table, sid, items), other, rows)
  {
    var t := UpsertRows(table, sid, items);
    forall k: RowKey | k.session_id == other ensures (k in t <==> k in table) && (k in t ==> t[k] == table[k]) {
      UpsertRowsExact(table, sid, items, k);
    }
  }

  // ---------------------------------------------------------------------------------------------
  // The rebuild equals the fold of everything.
  // ---------------------------------------------------------------------------------------------

  lemma {:induction false} GatedMembers(evs: seq<Event>)
    ensures forall e :: e in Gated(evs) ==> e in evs
  {
    if evs != [] {
      GatedMembers(evs[..|evs| - 1]);
      assert evs == evs[..|evs| - 1] + [evs[|evs| - 1]];
    }
  }

  lemma {:induction false} InsertMembers(sorted: seq<Event>, ev: Event)
    ensures forall e :: e in Insert(sorted, ev) <==> e in sorted || e == ev
  {
    if sorted != [] && Before(KeyOf(ev), KeyOf(sorted[|sorted| - 1])) {
      InsertMembers(sorted[..|sorted| - 1], ev);
      assert sorted == sorted[..|sorted| - 1] + [sorted[|sorted| - 1]];
    }
  }

  /** Sorted, allowing equal keys. */
  predicate Sorted(evs: seq<Event>) {
    forall i, j :: 0 <= i < j < |evs| ==> !Before(KeyOf(evs[j]), KeyOf(evs[i]))
  }

  lemma NotBeforeTransitive(k: Key, l: Key, m: Key)
    requires !Before(l, k) && !Before(m, l)
    ensures !Before(m, k)
  {
    BeforeTotal(k, l);
    BeforeTotal(l, m);
    BeforeTotal(k, m);
    if Before(m, k) && k != l {
      BeforeTransitive(m, k, l);
    }
  }

  lemma {:induction false} InsertSorted(sorted: seq<Event>, ev: Event)
    requires Sorted(sorted)
    ensures Sorted(Insert(sorted, ev))
  {
    if sorted != [] {
      var n := |sorted| - 1;
      if Before(KeyOf(ev), KeyOf(sorted[n])) {
        InsertSorted(sorted[..n], ev);
        InsertMembers(sorted[..n], ev);
        var front := Insert(sorted[..n], ev);
        forall i | 0 <= i < |front| ensures !Before(KeyOf(sorted[n]), KeyOf(front[i])) {
          assert front[i] in front;
          BeforeTotal(KeyOf(ev), KeyOf(sorted[n]));
          if front[i] != ev {
            var j :| 0 <= j < n && sorted[..n][j] == front[i];
          }
        }
      } else {
        forall i | 0 <= i < |sorted| ensures !Before(KeyOf(ev), KeyOf(sorted[i])) {
          if i < n {
            NotBeforeTransitive(KeyOf(sorted[i]), KeyOf(sorted[n]), KeyOf(ev));
          }
        }
      }
    }
  }

  lemma {:induction false} CanonicalSorted(evs: seq<Event>)
    ensures Sorted(Canonical(evs))
    ensures forall e :: e in Canonical(evs) <==> e in evs
  {
    if evs != [] {
      var n := |evs| - 1;
      CanonicalSorted(evs[..n]);
      InsertSorted(Canonical(evs[..n]), evs[n]);
      InsertMembers(Canonical(evs[..n]), evs[n]);
      assert evs == evs[..n] + [evs[n]];
    }
  }

  lemma GatedSnoc(evs: seq<Event>, ev: Event)
    ensures Gated(evs + [ev]) == if IsFoldEvent(ev) then Gated(evs) + [ev] else Gated(evs)
  {
    assert (evs + [ev])[..|evs|] == evs;
  }

  lemma NothingAfter(sorted: seq<Event>, ev: Event)
    requires Sorted(sorted) && sorted != [] && !Before(KeyOf(ev), KeyOf(sorted[|sorted| - 1]))
    ensures forall e :: e in sorted ==> !Before(KeyOf(ev), KeyOf(e))
  {
    var n := |sorted| - 1;
    forall i | 0 <= i < n ensures !Before(KeyOf(ev), KeyOf(sorted[i])) {
      NotBeforeTransitive(KeyOf(sorted[i]), KeyOf(sorted[n]), KeyOf(ev));
    }
  }

  /** Filtering commutes with sorted insertion. */
  lemma {:induction false} GatedInsert(sorted: seq<Event>, ev: Event)
    requires Sorted(sorted)
    ensures Gated(Insert(sorted, ev)) == if IsFoldEvent(ev) then Insert(Gated(sorted), ev) else Gated(sorted)
  {
    if sorted == [] {
      GatedSnoc([], ev);
      assert [] + [ev] == [ev];
    } else if Before(KeyOf(ev), KeyOf(sorted[|sorted| - 1])) {
      var front, last := sorted[..|sorted| - 1], sorted[|sorted| - 1];
      assert sorted == front + [last];
      GatedSnoc(front, last);
      GatedInsert(front, ev);
      GatedSnoc(Insert(front, ev), last);
      assert IsFoldEvent(last) ==> Gated(sorted)[..|Gated(sorted)| - 1] == Gated(front);
    } else {
      GatedSnoc(sorted, ev);
      NothingAfter(sorted, ev);
      GatedMembers(sorted);
    }
  }

  lemma {:induction false} GatedCanonical(evs: seq<Event>)
    ensures Canonical(Gated(evs)) == Gated(Canonical(evs))
  {
    if evs != [] {
      var n := |evs| - 1;
      GatedCanonical(evs[..n]);
      CanonicalSorted(evs[..n]);
      GatedInsert(Canonical(evs[..n]), evs[n]);
      if IsFoldEvent(evs[n]) {
        assert Gated(evs)[..|Gated(evs)| - 1] == Gated(evs[..n]);
      }
    }
  }

  /** Reading only the gated rows, in canonical order, rebuilds the fold of the session's whole history. */
  lemma RebuildIsFullFold(H: Sha256, log: seq<Event>, sid: string)
    ensures Rebuilt(H, log, sid) == Fold(H, sid, Canonical(OfSession(log, sid)))
  {
    var evs := OfSession(log, sid);
    GatedCanonical(evs);
    FoldGated(H, sid, Canonical(evs));
  }

  /** The fold of a session's whole history in canonical order. */
  function FullFold(H: Sha256, log: seq<Event>, sid: string): Projection {
    Fold(H, sid, Canonical(OfSession(log, sid)))
  }

  /** The new event comes after everything stored for its session. */
  predicate ComesLast(log: seq<Event>, ev: Event) {
    forall i :: 0 <= i < |log| && log[i].session_id == ev.session_id ==> Before(KeyOf(log[i]), KeyOf(ev))
  }

  lemma {:induction false} OfSessionMembers(log: seq<Event>, sid: string)
    ensures forall e :: e in OfSession(log, sid) <==> e in log && e.session_id == sid
  {
    if log != [] {
      OfSessionMembers(log[..|log| - 1], sid);
      assert log == log[..|log| - 1] + [log[|log| - 1]];
    }
  }

  lemma AppendLast(H: Sha256, log: seq<Event>, ev: Event, sid: string)
    requires ComesLast(log, ev)
    ensures FullFold(H, log + [ev], sid) ==
      if ev.session_id == sid then Apply(H, FullFold(H, log, sid), ev) else FullFold(H, log, sid)
  {
    var evs := OfSession(log, sid);
    assert (log + [ev])[..|log|] == log;
    if ev.session_id == sid {
      assert OfSession(log + [ev], sid) == evs + [ev];
      assert (evs + [ev])[..|evs|] == evs;
      var c := Canonical(evs);
      CanonicalSorted(evs);
      OfSessionMembers(log, sid);
      if c != [] {
        var top := c[|c| - 1];
        assert top in c && top in evs && top in log;
        var i :| 0 <= i < |log| && log[i] == top;
        BeforeTotal(KeyOf(log[i]), KeyOf(ev));
      }
      assert Canonical(evs + [ev]) == c + [ev];
      assert (c + [ev])[..|c|] == c;
    } else {
      assert OfSession(log + [ev], sid) == evs;
    }
  }

  // ---------------------------------------------------------------------------------------------
  // The table always equals the fold of the whole history.
  // ---------------------------------------------------------------------------------------------

  ghost predicate Faithful<P>(H: Sha256, s: Store<P>) {
    && (forall sid :: RowsAre(s.workItems, sid, FullFold(H, s.events, sid).items))
    && (forall sid :: sid in s.cache ==> s.cache[sid] == FullFold(H, s.events, sid))
  }

  predicate InOrderStep<P>(s: Store<P>, step: Step) {
    step.Deliver? && !Stored(s.events, step.ev.event_id) ==> ComesLast(s.events, step.ev)
  }

  lemma SkippedEventKeeps<P>(R: Reducer<P>, H: Sha256, s: Store<P>, ev: Event)
    requires Faithful(H, s) && !Stored(s.events, ev.event_id) && ComesLast(s.events, ev) && !IsFoldEvent(ev)
    ensures Faithful(H, Ingest(R, H, s, ev))
  {
    var s' := Ingest(R, H, s, ev);
    assert s'.events == s.events + [ev] && s'.workItems == s.workItems && s'.cache == s.cache;
    forall sid ensures FullFold(H, s.events + [ev], sid) == FullFold(H, s.events, sid) {
      SkippedFold(H, s.events, ev, sid);
    }
    SameFolds(H, s, s');
  }

  lemma SkippedFold(H: Sha256, log: seq<Event>, ev: Event, sid: string)
    requires ComesLast(log, ev) && !IsFoldEvent(ev)
    ensures FullFold(H, log + [ev], sid) == FullFold(H, log, sid)
  {
    AppendLast(H, log, ev, sid);
    ApplySkips(H, FullFold(H, log, sid), ev);
  }

  lemma ApplySkips(H: Sha256, p: Projection, ev: Event)
    requires !IsFoldEvent(ev)
    ensures Apply(H, p, ev) == p
  {
  }

  lemma SameFolds<P>(H: Sha256, s: Store<P>, t: Store<P>)
    requires Faithful(H, s) && t.workItems == s.workItems && t.cache == s.cache
    requires forall sid :: FullFold(H, t.events, sid) == FullFold(H, s.events, sid)
    ensures Faithful(H, t)
  {
    forall sid ensures RowsAre(t.workItems, sid, FullFold(H, t.events, sid).items) {
      assert RowsAre(s.workItems, sid, FullFold(H, s.events, sid).items);
    }
  }

  /** The rows a folded event writes, when the cache and table are faithful. */
  function Written<P>(H: Sha256, s: Store<P>, ev: Event): seq<WorkItem> {
    var prev, next := FullFold(H, s.events, ev.session_id), FullFold(H, s.events + [ev], ev.session_id);
    if ev.session_id in s.cache then Changed(prev.items, next.items) else next.items
  }

  lemma FoldedEventEffect<P>(R: Reducer<P>, H: Sha256, s: Store<P>, ev: Event)
    requires Faithful(H, s) && !Stored(s.events, ev.event_id) && ComesLast(s.events, ev) && IsFoldEvent(ev)
    ensures var s', sid := Ingest(R, H, s, ev), ev.session_id;
      && s'.events == s.events + [ev]
      && s'.workItems == UpsertRows(s.workItems, sid, Written(H, s, ev))
      && s'.cache == s.cache[sid := FullFold(H, s'.events, sid)]
  {
    var sid := ev.session_id;
    assert (s.events + [ev])[..|s.events|] == s.events;
    AppendLast(H, s.events, ev, sid);
    RebuildIsFullFold(H, s.events, sid);
  }

  lemma WrittenRows<P>(H: Sha256, s: Store<P>, ev: Event)
    requires Faithful(H, s) && ComesLast(s.events, ev)
    ensures DistinctIds(Written(H, s, ev))
    ensures RowsAre(UpsertRows(s.workItems, ev.session_id, Written(H, s, ev)), ev.session_id,
                    FullFold(H, s.events + [ev], ev.session_id).items)
  {
    var sid := ev.session_id;
    var prev, next := FullFold(H, s.events, sid), FullFold(H, s.events + [ev], sid);
    AppendLast(H, s.events, ev, sid);
    FoldSound(H, sid, Canonical(OfSession(s.events, sid)));
    FoldSound(H, sid, Canonical(OfSession(s.events + [ev], sid)));
    ApplyGrows(H, prev, ev);
    ChangedExact(prev.items, next.items);
    assert RowsAre(s.workItems, sid, prev.items);
    if sid in s.cache {
      RowsAfterIncrement(s.workItems, sid, prev.items, next.items);
    } else {
      ReconcileCovers(s.workItems, sid, prev.items, next.items);
    }
  }

  lemma FoldedEventKeeps<P>(R: Reducer<P>, H: Sha256, s: Store<P>, ev: Event)
    requires Faithful(H, s) && !Stored(s.events, ev.event_id) && ComesLast(s.events, ev) && IsFoldEvent(ev)
    ensures Faithful(H, Ingest(R, H, s, ev))
  {
    var sid := ev.session_id;
    var s' := Ingest(R, H, s, ev);
    FoldedEventEffect(R, H, s, ev);
    WrittenRows(H, s, ev);
    forall other
      ensures RowsAre(s'.workItems, other, FullFold(H, s'.events, other).items)
      ensures other in s'.cache ==> s'.cache[other] == FullFold(H, s'.events, other)
    {
      if other != sid {
        AppendLast(H, s.events, ev, other);
        assert RowsAre(s.workItems, other, FullFold(H, s.events, other).items);
        OtherRowsKept(s.workItems, sid, Written(H, s, ev), other, FullFold(H, s.events, other).items);
      }
    }
  }

  lemma ReconcileCovers(table: map<RowKey, WorkItem>, sid: string, prev: seq<WorkItem>, next: seq<WorkItem>)
    requires RowsAre(table, sid, prev) && DistinctIds(next) && Ids(prev) <= Ids(next)
    ensures RowsAre(UpsertRows(table, sid, next), sid, next)
  {
    RowsAfterReconcile(table, sid, next);
    forall k | k in table && k.session_id == sid ensures exists it :: it in next && it.work_item_id == k.work_item_id {
      var it :| it in prev && it.work_item_id == k.work_item_id;
      var i :| 0 <= i < |prev| && prev[i] == it;
      assert Ids(next)[i] == Ids(prev)[i];
      assert next[i] in next;
    }
  }

  ghost predicate AllInOrder<P>(R: Reducer<P>, H: Sha256, steps: seq<Step>) {
    forall n :: 0 <= n < |steps| ==> InOrderStep(Run(R, H, Empty(), steps[..n]), steps[n])
  }

  /**
   Under arbitrary evictions and restarts, and arbitrary repeated deliveries, as long as each new event
   comes last in its session's canonical order: the work_items rows of every session are exactly the
   items of folding the session's whole stored history, and so is every cached state.
   */
  lemma {:induction false} TableIsCanonical<P>(R: Reducer<P>, H: Sha256, steps: seq<Step>)
    requires AllInOrder(R, H, steps)
    ensures Faithful(H, Run(R, H, Empty(), steps))
  {
    if steps == [] {
      forall sid ensures RowsAre(map[], sid, FullFold(H, [], sid).items) {
        assert FullFold(H, [], sid).items == [];
      }
    } else {
      var n := |steps| - 1;
      forall m | 0 <= m < n ensures InOrderStep(Run(R, H, Empty<P>(), steps[..n][..m]), steps[..n][m]) {
        assert steps[..n][..m] == steps[..m];
      }
      TableIsCanonical(R, H, steps[..n]);
      var s := Run(R, H, Empty(), steps[..n]);
      assert InOrderStep(s, steps[n]);
      if steps[n].Deliver? && !Stored(s.events, steps[n].ev.event_id) {
        if IsFoldEvent(steps[n].ev) {
          FoldedEventKeeps(R, H, s, steps[n].ev);
        } else {
          SkippedEventKeeps(R, H, s, steps[n].ev);
        }
      }
    }
  }

  // ---------------------------------------------------------------------------------------------
  // After events arrived out of order.
  // ---------------------------------------------------------------------------------------------

  /** Every row of the session has the id of one of the items. */
  ghost predicate NoStray(table: map<RowKey, WorkItem>, sid: string, items: seq<WorkItem>) {
    forall k :: k in table && k.session_id == sid ==> exists it :: it in items && it.work_item_id == k.work_item_id
  }

  predicate HasRow(table: map<RowKey, WorkItem>, sid: string, it: WorkItem) {
    RowKey(sid, it.work_item_id) in table && table[RowKey(sid, it.work_item_id)] == it
  }

  /** What a rebuild writes: the fold of the history before the event, with the event applied last wherever it belongs. */
  function RebuildWrote<P>(H: Sha256, s: Store<P>, ev: Event): seq<WorkItem> {
    Apply(H, FullFold(H, s.events, ev.session_id), ev).items
  }

  ghost predicate SameItems(xs: seq<WorkItem>, ys: seq<WorkItem>) {
    forall it :: it in xs <==> it in ys
  }

  lemma RebuildEffect<P>(R: Reducer<P>, H: Sha256, s: Store<P>, ev: Event)
    requires !Stored(s.events, ev.event_id) && IsFoldEvent(ev) && ev.session_id !in s.cache
    ensures var s', sid := Ingest(R, H, s, ev), ev.session_id;
      && s'.events == s.events + [ev]
      && s'.workItems == UpsertRows(s.workItems, sid, RebuildWrote(H, s, ev))
      && DistinctIds(RebuildWrote(H, s, ev)) && DistinctIds(FullFold(H, s'.events, sid).items)
  {
    var sid := ev.session_id;
    assert (s.events + [ev])[..|s.events|] == s.events;
    RebuildIsFullFold(H, s.events, sid);
    FoldSound(H, sid, Canonical(OfSession(s.events, sid)));
    FoldSound(H, sid, Canonical(OfSession(s.events + [ev], sid)));
    ApplyGrows(H, FullFold(H, s.events, sid), ev);
  }

  /**
   What a rebuild writes, for every event and whatever the table held before: every item gets its row,
   and the rows are exactly those items if and only if no stray row was there, because nothing is deleted.
   */
  lemma RebuildWrites<P>(R: Reducer<P>, H: Sha256, s: Store<P>, ev: Event)
    requires !Stored(s.events, ev.event_id) && IsFoldEvent(ev) && ev.session_id !in s.cache
    ensures var s', sid, wrote := Ingest(R, H, s, ev), ev.session_id, RebuildWrote(H, s, ev);
      && (forall it :: it in wrote ==> HasRow(s'.workItems, sid, it))
      && (RowsAre(s'.workItems, sid, wrote) <==> NoStray(s.workItems, sid, wrote))
  {
    RebuildEffect(R, H, s, ev);
    RowsAfterReconcile(s.workItems, ev.session_id, RebuildWrote(H, s, ev));
  }

  /** Rows determine the items. */
  lemma RowsUnique(table: map<RowKey, WorkItem>, sid: string, xs: seq<WorkItem>, ys: seq<WorkItem>)
    requires RowsAre(table, sid, xs) && RowsAre(table, sid, ys)
    ensures SameItems(xs, ys)
  {
    RowsWithin(table, sid, xs, ys);
    RowsWithin(table, sid, ys, xs);
  }

  lemma RowsWithin(table: map<RowKey, WorkItem>, sid: string, xs: seq<WorkItem>, ys: seq<WorkItem>)
    requires (forall it :: it in xs ==> HasRow(table, sid, it)) && RowsAre(table, sid, ys)
    ensures forall it :: it in xs ==> it in ys
  {
    forall it | it in xs ensures it in ys {
      assert HasRow(table, sid, it);
      var y :| y in ys && y.work_item_id == it.work_item_id;
      assert HasRow(table, sid, y);
    }
  }

  /** When writing some items leaves rows that are exactly some others. */
  lemma WriteLeavesIff(table: map<RowKey, WorkItem>, sid: string, wrote: seq<WorkItem>, items: seq<WorkItem>)
    requires DistinctIds(wrote) && DistinctIds(items)
    ensures RowsAre(UpsertRows(table, sid, wrote), sid, items) <==>
      (&& NoStray(table, sid, items)
       && (forall it :: it in wrote ==> it in items)
       && (forall it :: it in items ==> it in wrote || HasRow(table, sid, it)))
  {
    var t := UpsertRows(table, sid, wrote);
    RowsAfterReconcile(table, sid, wrote);
    if RowsAre(t, sid, items) {
      WriteLeavesOnlyIf(table, sid, wrote, items);
    }
    if NoStray(table, sid, items) && (forall it :: it in wrote ==> it in items)
       && (forall it :: it in items ==> it in wrote || HasRow(table, sid, it)) {
      WriteLeavesIf(table, sid, wrote, items);
    }
  }

  lemma WriteLeavesOnlyIf(table: map<RowKey, WorkItem>, sid: string, wrote: seq<WorkItem>, items: seq<WorkItem>)
    requires DistinctIds(wrote) && RowsAre(UpsertRows(table, sid, wrote), sid, items)
    ensures NoStray(table, sid, items) && forall it :: it in wrote ==> it in items
    ensures forall it :: it in items ==> it in wrote || HasRow(table, sid, it)
  {
    var t := UpsertRows(table, sid, wrote);
    RowsAfterReconcile(table, sid, wrote);
    forall it | it in wrote ensures HasRow(t, sid, it) { }
    RowsWithin(t, sid, wrote, items);
    forall k | k in table && k.session_id == sid ensures k in t {
      KeysOnlyGrow(table, sid, wrote, k);
    }
    forall it | it in items ensures it in wrote || HasRow(table, sid, it) {
      UpsertRowsExact(table, sid, wrote, RowKey(sid, it.work_item_id));
    }
  }

  lemma WriteLeavesIf(table: map<RowKey, WorkItem>, sid: string, wrote: seq<WorkItem>, items: seq<WorkItem>)
    requires DistinctIds(wrote) && DistinctIds(items) && NoStray(table, sid, items)
    requires forall it :: it in wrote ==> it in items
    requires forall it :: it in items ==> it in wrote || HasRow(table, sid, it)
    ensures RowsAre(UpsertRows(table, sid, wrote), sid, items)
  {
    var t := UpsertRows(table, sid, wrote);
    forall it | it in items ensures HasRow(t, sid, it) {
      UpsertRowsExact(table, sid, wrote, RowKey(sid, it.work_item_id));
      var f := Find(wrote, it.work_item_id);
      if f < |wrote| {
        FindIs(items, it);
        FindIs(items, wrote[f]);
      } else {
        FindIn(wrote, it.work_item_id);
      }
    }
    forall k | k in t && k.session_id == sid ensures exists it :: it in items && it.work_item_id == k.work_item_id {
      UpsertRowsExact(table, sid, wrote, k);
      var f := Find(wrote, k.work_item_id);
      if f < |wrote| { assert wrote[f] in items; }
    }
  }

  /**
   Exactly when a rebuild repairs, for every event that triggers one and whatever the table held before:
   no row has an id the canonical fold lacks, what is written is canonical, and a canonical item that is
   not written had its row already.  Without rows beside the written ones, that is exactly when the
   written items are the canonical ones.
   */
  lemma RebuildRepairs<P>(R: Reducer<P>, H: Sha256, s: Store<P>, ev: Event)
    requires !Stored(s.events, ev.event_id) && IsFoldEvent(ev) && ev.session_id !in s.cache
    ensures var s', sid, wrote := Ingest(R, H, s, ev), ev.session_id, RebuildWrote(H, s, ev);
      var items := FullFold(H, s.events + [ev], sid).items;
      && (RowsAre(s'.workItems, sid, items) <==>
          (&& NoStray(s.workItems, sid, items)
           && (forall it :: it in wrote ==> it in items)
           && (forall it :: it in items ==> it in wrote || HasRow(s.workItems, sid, it))))
      && (NoStray(s.workItems, sid, wrote) ==> (RowsAre(s'.workItems, sid, items) <==> SameItems(wrote, items)))
  {
    var s', sid, wrote := Ingest(R, H, s, ev), ev.session_id, RebuildWrote(H, s, ev);
    var items := FullFold(H, s.events + [ev], sid).items;
    RebuildEffect(R, H, s, ev);
    WriteLeavesIff(s.workItems, sid, wrote, items);
    RebuildWrites(R, H, s, ev);
    if RowsAre(s'.workItems, sid, items) && NoStray(s.workItems, sid, wrote) {
      RowsUnique(s'.workItems, sid, wrote, items);
    }
  }

  /** An event that comes last triggers a repair exactly when no stray row is there. */
  lemma RebuildRepairsInOrder<P>(R: Reducer<P>, H: Sha256, s: Store<P>, ev: Event)
    requires !Stored(s.events, ev.event_id) && IsFoldEvent(ev) && ev.session_id !in s.cache
    requires ComesLast(s.events, ev)
    ensures var s', sid := Ingest(R, H, s, ev), ev.session_id;
      var items := FullFold(H, s.events + [ev], sid).items;
      && (forall it :: it in items ==> HasRow(s'.workItems, sid, it))
      && (RowsAre(s'.workItems, sid, items) <==> NoStray(s.workItems, sid, items))
  {
    AppendLast(H, s.events, ev, ev.session_id);
    RebuildWrites(R, H, s, ev);
  }

  const LateDone := Event("e1", "s", 10, None, WorkItemUpdated(Some("t"), Completed, None, None, None))
  const EarlyEnd := Event("e2", "s", 5, None, SessionEnded)
  const AfterBoth := Event("e3", "s", 20, None, CommandStarted(None, None))

  /** The late item is delivered, then the earlier session end, and the process restarts. */
  function OutOfOrder<P>(R: Reducer<P>, H: Sha256): Store<P> {
    Next(R, H, Next(R, H, Next(R, H, Empty(), Deliver(LateDone)), Deliver(EarlyEnd)), Restart)
  }

  lemma OutOfOrderRows<P>(R: Reducer<P>, H: Sha256)
    ensures var s := OutOfOrder(R, H);
      && s.events == [LateDone, EarlyEnd] && s.cache == map[]
      && RowKey("s", DeriveWorkItemId(H, Task, "t")) in s.workItems
  {
    var s1 := Ingest(R, H, Empty<P>(), LateDone);
    FirstItemStored(R, H);
    var written := Changed(s1.cache["s"].items, Apply(H, s1.cache["s"], EarlyEnd).items);
    KeysOnlyGrow(s1.workItems, "s", written, RowKey("s", DeriveWorkItemId(H, Task, "t")));
  }

  /**
   A rebuild is not always a repair: an item reported before an earlier-stamped session end arrives is
   not part of the canonical fold, and the rebuild leaves its row behind.
   */
  lemma RebuildKeepsStrayRows<P>(R: Reducer<P>, H: Sha256)
    ensures var s := OutOfOrder(R, H);
      var s' := Ingest(R, H, s, AfterBoth);
      && ComesLast(s.events, AfterBoth) && IsFoldEvent(AfterBoth) && "s" !in s.cache
      && !RowsAre(s'.workItems, "s", FullFold(H, s'.events, "s").items)
  {
    var s := OutOfOrder(R, H);
    OutOfOrderRows(R, H);
    EndedBeforeDone(H);
    assert s.events + [AfterBoth] == [LateDone, EarlyEnd, AfterBoth];
    RebuildRepairsInOrder(R, H, s, AfterBoth);
  }

  lemma FirstItemStored<P>(R: Reducer<P>, H: Sha256)
    ensures var s1 := Ingest(R, H, Empty(), LateDone);
      && s1.events == [LateDone] && "s" in s1.cache
      && RowKey("s", DeriveWorkItemId(H, Task, "t")) in s1.workItems
  {
    var s1 := Ingest(R, H, Empty<P>(), LateDone);
    assert [LateDone][..0] == [];
    assert Rebuilt(H, [], "s") == Initial("s");
    var next := Apply(H, Initial("s"), LateDone);
    assert next.items == [NewItem(Upsert(DeriveWorkItemId(H, Task, "t"), Task, Completed, None, None, None, None), LateDone)];
    assert s1.workItems == UpsertRows(map[], "s", next.items);
  }

  lemma {:induction false} KeysOnlyGrow(table: map<RowKey, WorkItem>, sid: string, items: seq<WorkItem>, k: RowKey)
    requires k in table
    ensures k in UpsertRows(table, sid, items)
  {
    if items != [] {
      KeysOnlyGrow(table, sid, items[..|items| - 1], k);
    }
  }

  lemma EndedBeforeDone(H: Sha256)
    ensures FullFold(H, [LateDone, EarlyEnd, AfterBoth], "s").items == []
  {
    var log := [LateDone, EarlyEnd, AfterBoth];
    assert log[..2] == [LateDone, EarlyEnd] && log[..1] == [LateDone];
    assert OfSession([LateDone], "s") == [LateDone] by { assert [LateDone][..0] == []; }
    assert OfSession([LateDone, EarlyEnd], "s") == [LateDone, EarlyEnd] by {
      assert [LateDone, EarlyEnd][..1] == [LateDone];
    }
    assert OfSession(log, "s") == log;
    assert Canonical([LateDone]) == [LateDone] by { assert [LateDone][..0] == []; }
    assert Canonical([LateDone, EarlyEnd]) == [EarlyEnd, LateDone] by {
      assert [LateDone, EarlyEnd][..1] == [LateDone];
      assert [LateDone][..0] == [];
      assert Insert([LateDone], EarlyEnd) == [EarlyEnd] + [LateDone];
    }
    var c := [EarlyEnd, LateDone, AfterBoth];
    assert Canonical(log) == c;
    assert c[..2] == [EarlyEnd, LateDone] && c[..2][..1] == [EarlyEnd] && c[..2][..1][..0] == [];
    assert Fold(H, "s", c[..2][..1]) == Initial("s").(frozen := true);
    assert Fold(H, "s", c[..2]).items == [];
  }

  const StartedLater := Event("e1", "s", 20, None, WorkItemUpdated(Some("t"), InProgress, None, None, None))
  const DoneEarlier := Event("e2", "s", 10, None, WorkItemUpdated(Some("t"), Completed, None, None, None))

  function StartedThenRestart<P>(R: Reducer<P>, H: Sha256): Store<P> {
    Run(R, H, Empty(), [Deliver(StartedLater), Restart])
  }

  lemma StartedIsCanonical<P>(R: Reducer<P>, H: Sha256)
    ensures var s := StartedThenRestart(R, H);
      s.events == [StartedLater] && s.cache == map[] && Faithful(H, s)
  {
    var steps := [Deliver(StartedLater), Restart];
    assert steps[..1] == [Deliver(StartedLater)] && steps[..1][..0] == [] && steps[..0] == [];
    assert Run(R, H, Empty<P>(), steps[..1]).events == [StartedLater];
    TableIsCanonical(R, H, steps);
  }

  lemma StartedFold(H: Sha256)
    ensures FullFold(H, [StartedLater], "s") == Apply(H, Initial("s"), StartedLater)
    ensures FullFold(H, [StartedLater, DoneEarlier], "s") == Apply(H, Apply(H, Initial("s"), DoneEarlier), StartedLater)
  {
    var log, c := [StartedLater, DoneEarlier], [DoneEarlier, StartedLater];
    assert [StartedLater][..0] == [] && log[..1] == [StartedLater];
    assert OfSession([StartedLater], "s") == [StartedLater];
    assert OfSession(log, "s") == log;
    assert Canonical([StartedLater]) == [StartedLater];
    assert Canonical(log) == c by { assert Insert([StartedLater], DoneEarlier) == [DoneEarlier] + [StartedLater]; }
    assert c[..1] == [DoneEarlier] && c[..1][..0] == [];
    assert Fold(H, "s", c[..1]) == Apply(H, Initial("s"), DoneEarlier);
    assert Fold(H, "s", [StartedLater]) == Apply(H, Initial("s"), StartedLater);
  }

  lemma UpdateTwice(H: Sha256, first: Event, second: Event)
    requires first.payload.WorkItemUpdated? && second.payload.WorkItemUpdated? && first.state.None? && second.state.None?
    requires first.payload.providerTaskId == Some("t") == second.payload.providerTaskId
    ensures var p := Apply(H, Apply(H, Initial("s"), first), second);
      |p.items| == 1 && p.items[0].status == second.payload.status
  {
    var id := DeriveWorkItemId(H, Task, "t");
    var p := Apply(H, Initial("s"), first);
    assert |p.items| == 1 && p.items[0].work_item_id == id;
    assert Find(p.items, id) == 0;
  }

  lemma LateFolds(H: Sha256)
    ensures var before := FullFold(H, [StartedLater], "s");
      var wrote, items := Apply(H, before, DoneEarlier).items, FullFold(H, [StartedLater, DoneEarlier], "s").items;
      && |wrote| == |items| == 1 && wrote[0].status == Completed && items[0].status == InProgress
      && forall it :: it in before.items ==> it.work_item_id == wrote[0].work_item_id && wrote[0] in wrote
  {
    StartedFold(H);
    UpdateTwice(H, StartedLater, DoneEarlier);
    UpdateTwice(H, DoneEarlier, StartedLater);
    var before := FullFold(H, [StartedLater], "s");
    ApplyGrows(H, before, DoneEarlier);
    assert |before.items| == 1;
    assert before.items[0].work_item_id == Ids(before.items)[0] == Ids(Apply(H, before, DoneEarlier).items)[0];
  }

  lemma NotStored(log: seq<Event>)
    requires log == [StartedLater]
    ensures !Stored(log, DoneEarlier.event_id) && IsFoldEvent(DoneEarlier)
  {
    assert "e1"[1] != "e2"[1];
  }

  /** Without stray rows, a rebuild that writes something the canonical fold does not have leaves the wrong rows. */
  lemma WritesOther<P>(R: Reducer<P>, H: Sha256, s: Store<P>, ev: Event, items: seq<WorkItem>)
    requires !Stored(s.events, ev.event_id) && IsFoldEvent(ev) && ev.session_id !in s.cache
    requires items == FullFold(H, s.events + [ev], ev.session_id).items
    requires NoStray(s.workItems, ev.session_id, RebuildWrote(H, s, ev))
    requires RebuildWrote(H, s, ev) != [] && RebuildWrote(H, s, ev)[0] !in items
    ensures var t := Ingest(R, H, s, ev).workItems;
      RowsAre(t, ev.session_id, RebuildWrote(H, s, ev)) && !RowsAre(t, ev.session_id, items)
  {
    assert RebuildWrote(H, s, ev)[0] in RebuildWrote(H, s, ev);
    RebuildWrites(R, H, s, ev);
    RebuildRepairs(R, H, s, ev);
  }

  lemma LateNoStray<P>(H: Sha256, s: Store<P>)
    requires s.events == [StartedLater] && Faithful(H, s)
    ensures NoStray(s.workItems, "s", RebuildWrote(H, s, DoneEarlier))
  {
    LateFolds(H);
    assert RowsAre(s.workItems, "s", FullFold(H, [StartedLater], "s").items);
  }

  /**
   A late event can itself undo the repair: the rows are canonical and the process restarts; then the
   earlier completion of a task already seen in progress arrives.  No row is stray, and the rebuild
   applies the completion last although the canonical order puts it first.
   */
  lemma LateRebuildWritesStale<P>(R: Reducer<P>, H: Sha256)
    ensures var s := StartedThenRestart(R, H);
      var s', wrote := Ingest(R, H, s, DoneEarlier), RebuildWrote(H, s, DoneEarlier);
      var items := FullFold(H, [StartedLater, DoneEarlier], "s").items;
      && s.events == [StartedLater] && s.cache == map[] && Faithful(H, s)
      && !Stored(s.events, DoneEarlier.event_id) && IsFoldEvent(DoneEarlier)
      && NoStray(s.workItems, "s", wrote) && RowsAre(s'.workItems, "s", wrote)
      && |wrote| == |items| == 1 && wrote[0].status == Completed && items[0].status == InProgress
      && !RowsAre(s'.workItems, "s", items)
  {
    var s := StartedThenRestart(R, H);
    StartedIsCanonical(R, H);
    NotStored(s.events);
    LateNoStray(H, s);
    LateFolds(H);
    assert s.events + [DoneEarlier] == [StartedLater, DoneEarlier];
    WritesOther(R, H, s, DoneEarlier, FullFold(H, [StartedLater, DoneEarlier], "s").items);
  }

  // ---------------------------------------------------------------------------------------------
  // The store as the program runs it.
  // ---------------------------------------------------------------------------------------------

  /** The ingest path as imperative code over the tables and the cache; each method refines a step. */
  class IngestStore<P> {
    const reducer: Reducer<P>
    const sha: Sha256
    var events: seq<Event>
    var projections: map<string, P>
    var workItems: map<RowKey, WorkItem>
    var cache: map<string, Projection>

    constructor (reducer: Reducer<P>, sha: Sha256)
      ensures this.reducer == reducer && this.sha == sha && View() == Empty()
    {
      this.reducer, this.sha := reducer, sha;
      events, projections, workItems, cache := [], map[], map[], map[];
    }

    ghost function View(): Store<P>
      reads this
    {
      Store(events, projections, workItems, cache)
    }

    /** One delivery, with the transaction committing. */
    method IngestOne(ev: Event) returns (inserted: bool)
      modifies this
      ensures View() == Ingest(reducer, sha, old(View()), ev)
      ensures inserted <==> !Stored(old(events), ev.event_id)
    {
      inserted := true;
      for i := 0 to |events|
        invariant inserted && forall j :: 0 <= j < i ==> events[j].event_id != ev.event_id
        invariant View() == old(View())
      {
        if events[i].event_id == ev.event_id {
          inserted := false;
          return;
        }
      }
      var sid := ev.session_id;
      var prev := if sid in projections then projections[sid] else reducer.init(sid);
      events := events + [ev];
      projections := projections[sid := reducer.apply(prev, ev)];
      if IsFoldEvent(ev) {
        ApplyWorkItemsIncremental(ev);
      }
    }

    method ApplyWorkItemsIncremental(ev: Event)
      requires events != [] && events[|events| - 1] == ev
      modifies this`workItems, this`cache
      ensures View() == ApplyIncremental(sha, old(View()), ev)
    {
      var sid := ev.session_id;
      if sid in cache {
        var prev := cache[sid];
        var next := Apply(sha, prev, ev);
        cache := cache[sid := next];
        UpsertWorkItemRows(sid, prev.items, next.items);
      } else {
        var prev := ReduceWorkItems(sha, sid, Canonical(Gated(OfSession(events[..|events| - 1], sid))));
        var next := Apply(sha, prev, ev);
        cache := cache[sid := next];
        UpsertItems(sid, next.items);
      }
    }

    method UpsertWorkItemRows(sid: string, prev: seq<WorkItem>, next: seq<WorkItem>)
      modifies this`workItems
      ensures workItems == UpsertRows(old(workItems), sid, Changed(prev, next))
    {
      var changed: seq<WorkItem> := [];
      for i := 0 to |next|
        invariant changed == Changed(prev, next[..i])
        invariant workItems == old(workItems)
      {
        assert next[..i + 1][..i] == next[..i];
        var k := Find(prev, next[i].work_item_id);
        if !(k < |prev| && prev[k] == next[i]) {
          changed := changed + [next[i]];
        }
      }
      assert next[..|next|] == next;
      UpsertItems(sid, changed);
    }

    method UpsertItems(sid: string, items: seq<WorkItem>)
      modifies this`workItems
      ensures workItems == UpsertRows(old(workItems), sid, items)
    {
      for i := 0 to |items|
        invariant workItems == UpsertRows(old(workItems), sid, items[..i])
      {
        assert items[..i + 1][..i] == items[..i];
        workItems := workItems[RowKey(sid, items[i].work_item_id) := items[i]];
      }
      assert items[..|items|] == items;
    }

    /** The cache drops a session, or everything when the process restarts. */
    method EvictSession(sid: string)
      modifies this`cache
      ensures View() == Next(reducer, sha, old(View()), Evict(sid))
    {
      cache := cache - {sid};
    }
  }
}
