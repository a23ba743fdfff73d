/**
 Reconciliation of stored approval requests with the ones a daemon says are alive.

 The world is a step system with one clock: requests are asked and die at daemons, are stored and
 removed in the backend's table, hellos with a snapshot of live ids travel for a while, and
 reconciles run concurrently, suspended at the table read and at every synthetic ingest.  Main
 results, over every run: `NeverRetiresLive` (a hello that takes at most the watermark never costs a
 live request) with `LateHelloRetiresLive` (any longer delay can), and `OneIngestPerId` with the
 bound on running reconciles.
 */
module ApprovalReconciler {
  import opened Options
  import opened ApprovalIds

  const WATERMARK_MS: int := 2000
  const MAX_RUNNING: nat := 4
  const MAX_SESSIONS: nat := 1024

  type Daemon = nat

  datatype Request = Request(session: string, daemon: Daemon, askedAt: int, alive: bool)

  /** A stored pending request; the time is missing when it cannot be read. */
  datatype Row = Row(session: string, id: string, askedAt: Option<int>)

  /** A hello on its way: the ids its daemon held when it was built.  `known` and `living` record the whole world then. */
  datatype Hello = Hello(daemon: Daemon, declared: set<string>, sentAt: int, known: set<string>, living: set<string>)

  datatype Signal = Signal(hello: Hello, sessions: set<string>, receivedAt: int)

  /** A reconcile: waiting for the table, looking at row `next`, or waiting for that row's synthetic ingest. */
  datatype Task =
    | Reading(signal: Signal)
    | Scanning(signal: Signal, rows: seq<Row>, next: nat)
    | Ingesting(signal: Signal, rows: seq<Row>, next: nat)

  datatype Retired = Retired(id: string, signal: Signal)

  datatype World = World(
    clock: int,
    requests: map<string, Request>,
    table: set<Row>,
    hellos: set<Hello>,
    tasks: map<nat, Task>,
    running: nat,
    inFlight: set<string>,
    skips: nat,
    retired: seq<Retired>)

  datatype Step =
    | Tick(ms: nat)
    | Ask(id: string, session: string, daemon: Daemon)
    | Die(id: string)
    | Store(id: string, readable: bool)
    | Unstore(row: Row)
    | SendHello(daemon: Daemon)
    | Receive(hello: Hello, sessions: set<string>, task: nat)
    | Read(task: nat, rows: seq<Row>)
    | ReadFails(task: nat)
    | Look(task: nat)
    | IngestEnds(task: nat)

  // ---------------------------------------------------------------------------------------------
  // Steps.
  // ---------------------------------------------------------------------------------------------

  function Living(w: World): set<string> {
    set id | id in w.requests && w.requests[id].alive
  }

  function HeldBy(w: World, d: Daemon): set<string> {
    set id | id in w.requests && w.requests[id].alive && w.requests[id].daemon == d
  }

  function Snapshot(w: World, d: Daemon): Hello {
    Hello(d, HeldBy(w, d), w.clock, w.requests.Keys, Living(w))
  }

  /** The registry's gate: a signal is raised only for a bounded, non-empty set of owned sessions and a well-formed declaration. */
  predicate Acceptable(h: Hello, sessions: set<string>) {
    && 0 < |sessions| <= MAX_SESSIONS
    && |h.declared| <= MAX_ACTIVE_PENDING_IDS
    && forall id :: id in h.declared ==> IsCanonical(id)
  }

  predicate Stale(sg: Signal, row: Row) {
    && row.id !in sg.hello.declared
    && Retirable(row.id)
    && row.askedAt.Some? && row.askedAt.value < sg.receivedAt - WATERMARK_MS
  }

  function EndTask(w: World, n: nat): World
    requires w.running > 0
  {
    w.(tasks := w.tasks - {n}, running := w.running - 1)
  }

  /** Look at one row: retire it, or pass over it. */
  function LookStep(w: World, n: nat): World
    requires n in w.tasks && w.tasks[n].Scanning? && w.running > 0
  {
    var t := w.tasks[n];
    if t.next >= |t.rows| then EndTask(w, n)
    else
      var row := t.rows[t.next];
      if Stale(t.signal, row) && row.id !in w.inFlight then
        w.(inFlight := w.inFlight + {row.id},
           retired := w.retired + [Retired(row.id, t.signal)],
           tasks := w.tasks[n := Ingesting(t.signal, t.rows, t.next)])
      else
        w.(tasks := w.tasks[n := Scanning(t.signal, t.rows, t.next + 1)],
           skips := if row.id !in t.signal.hello.declared && !Retirable(row.id) then w.skips + 1 else w.skips)
  }

  /** What may happen.  Request ids are new; a hello is received from those on their way; a read returns the table's rows. */
  predicate Enabled(w: World, t: Step) {
    match t
    case Ask(id, _, _) => id !in w.requests
    case Die(id) => id in w.requests
    case Store(id, _) => id in w.requests
    case Receive(h, _, n) => h in w.hellos && n !in w.tasks
    case Read(n, rows) => n in w.tasks && w.tasks[n].Reading? && RowsOf(w, w.tasks[n].signal, rows)
    case ReadFails(n) => n in w.tasks && w.tasks[n].Reading? && w.running > 0
    case Look(n) => n in w.tasks && w.tasks[n].Scanning? && w.running > 0
    case IngestEnds(n) => n in w.tasks && w.tasks[n].Ingesting? && w.tasks[n].next < |w.tasks[n].rows|
    case _ => true
  }

  predicate RowsOf(w: World, sg: Signal, rows: seq<Row>) {
    forall k :: 0 <= k < |rows| ==> rows[k] in w.table && rows[k].session in sg.sessions
  }

  function Next(w: World, t: Step): World
    requires Enabled(w, t)
  {
    match t
    case Tick(ms) => w.(clock := w.clock + ms)
    case Ask(id, session, d) => w.(requests := w.requests[id := Request(session, d, w.clock, true)])
    case Die(id) => w.(requests := w.requests[id := w.requests[id].(alive := false)])
    case Store(id, readable) =>
      var r := w.requests[id];
      w.(table := w.table + {Row(r.session, id, if readable then Some(r.askedAt) else None)})
    case Unstore(row) => w.(table := w.table - {row})
    case SendHello(d) => w.(hellos := w.hellos + {Snapshot(w, d)})
    case Receive(h, sessions, n) =>
      if Acceptable(h, sessions) && w.running < MAX_RUNNING
      then w.(tasks := w.tasks[n := Reading(Signal(h, sessions, w.clock))], running := w.running + 1)
      else w
    case Read(n, rows) => w.(tasks := w.tasks[n := Scanning(w.tasks[n].signal, rows, 0)])
    case ReadFails(n) => EndTask(w, n)
    case Look(n) => LookStep(w, n)
    case IngestEnds(n) =>
      var k := w.tasks[n];
      w.(inFlight := w.inFlight - {k.rows[k.next].id}, tasks := w.tasks[n := Scanning(k.signal, k.rows, k.next + 1)])
  }

  /** The conditions on the network: a hello takes at most the watermark, and the requests of the sessions it speaks for belong to its daemon. */
  predicate Timely(w: World, t: Step, delay: int) {
    t.Receive? ==>
      && w.clock <= t.hello.sentAt + delay
      && forall id :: id in w.requests && w.requests[id].session in t.sessions ==> w.requests[id].daemon == t.hello.daemon
  }

  predicate ValidRun(w: World, ts: seq<Step>, delay: int)
    decreases |ts|
  {
    ts != [] ==> Enabled(w, ts[0]) && Timely(w, ts[0], delay) && ValidRun(Next(w, ts[0]), ts[1..], delay)
  }

  function Run(w: World, ts: seq<Step>, delay: int): World
    requires ValidRun(w, ts, delay)
    decreases |ts|
  {
    if ts == [] then w else Run(Next(w, ts[0]), ts[1..], delay)
  }

  const Start := World(0, map[], {}, {}, map[], 0, {}, 0, [])

  // ---------------------------------------------------------------------------------------------
  // Concurrency: the in-flight set and the running count.
  // ---------------------------------------------------------------------------------------------

  predicate IngestsId(t: Task, id: string) {
    t.Ingesting? && t.next < |t.rows| && t.rows[t.next].id == id
  }

  /** The in-flight set is exactly the ids being ingested, each by one task; the running count is the number of tasks. */
  ghost predicate TasksOk(w: World) {
    && w.running == |w.tasks| <= MAX_RUNNING
    && (forall n :: n in w.tasks && w.tasks[n].Ingesting? ==> w.tasks[n].next < |w.tasks[n].rows|)
    && (forall n, id :: n in w.tasks && IngestsId(w.tasks[n], id) ==> id in w.inFlight)
    && (forall id :: id in w.inFlight ==> exists n :: n in w.tasks && IngestsId(w.tasks[n], id))
    && (forall a, b, id :: a in w.tasks && b in w.tasks && IngestsId(w.tasks[a], id) && IngestsId(w.tasks[b], id) ==> a == b)
  }

  lemma ReplaceTask(tasks: map<nat, Task>, n: nat, t: Task)
    ensures |tasks[n := t]| == |tasks| + if n in tasks then 0 else 1
  {
    assert tasks[n := t].Keys == tasks.Keys + {n};
  }

  lemma RemoveTask(tasks: map<nat, Task>, n: nat)
    requires n in tasks
    ensures |tasks - {n}| == |tasks| - 1
  {
    assert (tasks - {n}).Keys == tasks.Keys - {n};
  }

  /** A task that ingests nothing is replaced by one that ingests nothing, or goes. */
  lemma QuietChange(w: World, w': World, n: nat)
    requires TasksOk(w) && w'.inFlight == w.inFlight && w'.running == |w'.tasks| <= MAX_RUNNING
    requires n in w.tasks ==> !w.tasks[n].Ingesting?
    requires n in w'.tasks ==> !w'.tasks[n].Ingesting?
    requires forall m: nat :: m != n ==> SameAt(w, w', m)
    ensures TasksOk(w')
  {
    assert forall m: nat :: m in w'.tasks && w'.tasks[m].Ingesting? ==> SameAt(w, w', m);
    assert forall m: nat, id :: m in w'.tasks && IngestsId(w'.tasks[m], id) ==> SameAt(w, w', m);
    forall id | id in w'.inFlight ensures exists m :: m in w'.tasks && IngestsId(w'.tasks[m], id) {
      var m: nat :| m in w.tasks && IngestsId(w.tasks[m], id);
      assert SameAt(w, w', m);
    }
  }

  predicate SameAt(w: World, w': World, m: nat) {
    (m in w'.tasks <==> m in w.tasks) && (m in w.tasks ==> w'.tasks[m] == w.tasks[m])
  }

  lemma IngestStarts(w: World, n: nat)
    requires TasksOk(w) && n in w.tasks && w.tasks[n].Scanning? && w.tasks[n].next < |w.tasks[n].rows|
    requires w.tasks[n].rows[w.tasks[n].next].id !in w.inFlight
    ensures var t := w.tasks[n];
      TasksOk(w.(inFlight := w.inFlight + {t.rows[t.next].id}, tasks := w.tasks[n := Ingesting(t.signal, t.rows, t.next)]))
  {
    var t := w.tasks[n];
    var w' := w.(inFlight := w.inFlight + {t.rows[t.next].id}, tasks := w.tasks[n := Ingesting(t.signal, t.rows, t.next)]);
    ReplaceTask(w.tasks, n, Ingesting(t.signal, t.rows, t.next));
    assert IngestsId(w'.tasks[n], t.rows[t.next].id);
    forall id | id in w.inFlight ensures exists m :: m in w'.tasks && IngestsId(w'.tasks[m], id) {
      var m :| m in w.tasks && IngestsId(w.tasks[m], id);
      assert m in w'.tasks && IngestsId(w'.tasks[m], id);
    }
  }

  lemma IngestStops(w: World, n: nat)
    requires TasksOk(w) && n in w.tasks && w.tasks[n].Ingesting?
    ensures TasksOk(Next(w, IngestEnds(n)))
  {
    var t, w' := w.tasks[n], Next(w, IngestEnds(n));
    ReplaceTask(w.tasks, n, w'.tasks[n]);
    assert IngestsId(t, t.rows[t.next].id);
    forall id | id in w'.inFlight ensures exists m :: m in w'.tasks && IngestsId(w'.tasks[m], id) {
      var m :| m in w.tasks && IngestsId(w.tasks[m], id);
      assert m in w'.tasks && IngestsId(w'.tasks[m], id);
    }
  }

  lemma SameTasks(w: World, w': World)
    requires TasksOk(w) && w'.tasks == w.tasks && w'.running == w.running && w'.inFlight == w.inFlight
    ensures TasksOk(w')
  {
  }

  lemma QuietEnd(w: World, n: nat)
    requires TasksOk(w) && n in w.tasks && !w.tasks[n].Ingesting? && w.running > 0
    ensures TasksOk(EndTask(w, n))
  {
    RemoveTask(w.tasks, n);
    QuietChange(w, EndTask(w, n), n);
  }

  lemma LookTasks(w: World, n: nat)
    requires TasksOk(w) && Enabled(w, Look(n))
    ensures TasksOk(LookStep(w, n))
  {
    var t, w' := w.tasks[n], LookStep(w, n);
    if t.next >= |t.rows| {
      QuietEnd(w, n);
    } else if Stale(t.signal, t.rows[t.next]) && t.rows[t.next].id !in w.inFlight {
      IngestStarts(w, n);
      SameTasks(w.(inFlight := w'.inFlight, tasks := w'.tasks), w');
    } else {
      ReplaceTask(w.tasks, n, w'.tasks[n]);
      QuietChange(w, w', n);
    }
  }

  lemma StepTasks(w: World, t: Step)
    requires TasksOk(w) && Enabled(w, t)
    ensures TasksOk(Next(w, t))
  {
    var w' := Next(w, t);
    match t
    case Receive(h, sessions, n) =>
      if Acceptable(h, sessions) && w.running < MAX_RUNNING {
        ReplaceTask(w.tasks, n, w'.tasks[n]);
        QuietChange(w, w', n);
      }
    case Read(n, rows) =>
      ReplaceTask(w.tasks, n, w'.tasks[n]);
      QuietChange(w, w', n);
    case ReadFails(n) => QuietEnd(w, n);
    case Look(n) => LookTasks(w, n);
    case IngestEnds(n) => IngestStops(w, n);
    case _ => SameTasks(w, w');
  }

  lemma {:induction false} RunTasks(w: World, ts: seq<Step>, delay: int)
    requires TasksOk(w) && ValidRun(w, ts, delay)
    ensures TasksOk(Run(w, ts, delay))
    decreases |ts|
  {
    if ts != [] {
      StepTasks(w, ts[0]);
      RunTasks(Next(w, ts[0]), ts[1..], delay);
    }
  }

  /** At any moment of any run at most four reconciles run, and no id has two synthetic ingests in flight. */
  lemma OneIngestPerId(ts: seq<Step>, delay: int, a: nat, b: nat, id: string)
    requires ValidRun(Start, ts, delay)
    ensures var w := Run(Start, ts, delay);
      && |w.tasks| <= MAX_RUNNING
      && (a in w.tasks && b in w.tasks && IngestsId(w.tasks[a], id) && IngestsId(w.tasks[b], id) ==> a == b)
  {
    RunTasks(Start, ts, delay);
  }

  // ---------------------------------------------------------------------------------------------
  // Facts that last: what was asked stays asked, what died stays dead, and time moves on.
  // ---------------------------------------------------------------------------------------------

  predicate Grows(w: World, w': World) {
    && w.clock <= w'.clock
    && (forall id :: id in w.requests ==>
          && id in w'.requests
          && w'.requests[id].session == w.requests[id].session
          && w'.requests[id].daemon == w.requests[id].daemon
          && w'.requests[id].askedAt == w.requests[id].askedAt
          && (w'.requests[id].alive ==> w.requests[id].alive))
    && (forall id :: id in w'.requests && id !in w.requests ==> w'.requests[id].askedAt >= w.clock)
  }

  predicate RowOk(w: World, row: Row) {
    && row.id in w.requests && row.session == w.requests[row.id].session
    && (row.askedAt.Some? ==> row.askedAt.value == w.requests[row.id].askedAt)
  }

  /** The hello told the truth about its moment: what is not known to it came later, what it does not list as living is dead. */
  predicate HelloOk(w: World, h: Hello) {
    && h.sentAt <= w.clock
    && h.known <= w.requests.Keys && h.declared <= h.living
    && (forall id :: id in w.requests && id !in h.known ==> w.requests[id].askedAt >= h.sentAt)
    && (forall id :: id in h.known && id !in h.living ==> !w.requests[id].alive)
    && (forall id :: id in h.known ==> (id in h.declared <==> id in h.living && w.requests[id].daemon == h.daemon))
  }

  predicate SignalOk(w: World, sg: Signal, delay: int) {
    && HelloOk(w, sg.hello)
    && sg.receivedAt <= sg.hello.sentAt + delay
    && forall id :: id in sg.hello.known && w.requests[id].session in sg.sessions ==> w.requests[id].daemon == sg.hello.daemon
  }

  predicate TaskOk(w: World, t: Task, delay: int) {
    && SignalOk(w, t.signal, delay)
    && (!t.Reading? ==> forall k :: 0 <= k < |t.rows| ==> RowOk(w, t.rows[k]) && t.rows[k].session in t.signal.sessions)
  }

  /** The retired request existed when the hello was built, and was already dead. */
  predicate RetiredOk(w: World, r: Retired) {
    && r.id in r.signal.hello.known && r.id !in r.signal.hello.living
    && r.id in w.requests && !w.requests[r.id].alive
  }

  ghost predicate HistoryOk(w: World, delay: int) {
    && (forall row :: row in w.table ==> RowOk(w, row))
    && (forall h :: h in w.hellos ==> HelloOk(w, h))
    && (forall n :: n in w.tasks ==> TaskOk(w, w.tasks[n], delay))
    && (forall k :: 0 <= k < |w.retired| ==> RetiredOk(w, w.retired[k]))
  }

  lemma HelloStays(w: World, w': World, h: Hello)
    requires Grows(w, w') && HelloOk(w, h)
    ensures HelloOk(w', h)
  {
  }

  lemma TaskStays(w: World, w': World, t: Task, delay: int)
    requires Grows(w, w') && TaskOk(w, t, delay)
    ensures TaskOk(w', t, delay)
  {
    HelloStays(w, w', t.signal.hello);
    if !t.Reading? {
      forall k | 0 <= k < |t.rows| ensures RowOk(w', t.rows[k]) { assert RowOk(w, t.rows[k]); }
    }
  }

  lemma StepGrows(w: World, t: Step)
    requires Enabled(w, t)
    ensures Grows(w, Next(w, t))
  {
  }

  /** Everything said before a step is still so after it. */
  lemma HistoryStays(w: World, w': World, delay: int)
    requires HistoryOk(w, delay) && Grows(w, w')
    ensures forall row :: row in w.table ==> RowOk(w', row)
    ensures forall h :: h in w.hellos ==> HelloOk(w', h)
    ensures forall n :: n in w.tasks ==> TaskOk(w', w.tasks[n], delay)
    ensures forall k :: 0 <= k < |w.retired| ==> RetiredOk(w', w.retired[k])
  {
    forall h | h in w.hellos ensures HelloOk(w', h) { HelloStays(w, w', h); }
    forall n | n in w.tasks ensures TaskOk(w', w.tasks[n], delay) { TaskStays(w, w', w.tasks[n], delay); }
    forall row | row in w.table ensures RowOk(w', row) { assert RowOk(w, row); }
    forall k | 0 <= k < |w.retired| ensures RetiredOk(w', w.retired[k]) { assert RetiredOk(w, w.retired[k]); }
  }

  lemma SnapshotOk(w: World, d: Daemon)
    ensures HelloOk(w, Snapshot(w, d))
  {
  }

  /**
   The heart of it: a stale row's request is older than the snapshot, because the hello took no longer
   than the watermark; had it been alive then, its daemon would have declared it.
   */
  lemma StaleWasDead(w: World, sg: Signal, row: Row)
    requires SignalOk(w, sg, WATERMARK_MS) && RowOk(w, row) && row.session in sg.sessions && Stale(sg, row)
    ensures RetiredOk(w, Retired(row.id, sg))
  {
    assert w.requests[row.id].askedAt < sg.hello.sentAt;
  }

  lemma LookHistory(w: World, n: nat)
    requires HistoryOk(w, WATERMARK_MS) && Enabled(w, Look(n))
    ensures HistoryOk(LookStep(w, n), WATERMARK_MS)
  {
    var t, w' := w.tasks[n], LookStep(w, n);
    HistoryStays(w, w', WATERMARK_MS);
    assert TaskOk(w', t, WATERMARK_MS);
    if t.next < |t.rows| {
      var row := t.rows[t.next];
      if Stale(t.signal, row) && row.id !in w.inFlight { StaleWasDead(w', t.signal, row); }
    }
    forall m | m in w'.tasks ensures TaskOk(w', w'.tasks[m], WATERMARK_MS) {
      if m == n { assert w'.tasks[n].rows == t.rows && w'.tasks[n].signal == t.signal; }
    }
  }

  lemma ReceiveHistory(w: World, h: Hello, sessions: set<string>, n: nat, delay: int)
    requires HistoryOk(w, delay) && Enabled(w, Receive(h, sessions, n)) && Timely(w, Receive(h, sessions, n), delay)
    ensures HistoryOk(Next(w, Receive(h, sessions, n)), delay)
  {
    var w' := Next(w, Receive(h, sessions, n));
    HistoryStays(w, w', delay);
    assert SignalOk(w', Signal(h, sessions, w.clock), delay);
  }

  lemma StepHistory(w: World, t: Step)
    requires HistoryOk(w, WATERMARK_MS) && Enabled(w, t) && Timely(w, t, WATERMARK_MS)
    ensures HistoryOk(Next(w, t), WATERMARK_MS)
  {
    var w' := Next(w, t);
    StepGrows(w, t);
    HistoryStays(w, w', WATERMARK_MS);
    match t
    case Receive(h, sessions, n) => ReceiveHistory(w, h, sessions, n, WATERMARK_MS);
    case SendHello(d) => SnapshotOk(w', d);
    case Read(n, rows) => ReadHistory(w, n, rows);
    case Look(n) => LookHistory(w, n);
    case IngestEnds(n) => IngestHistory(w, n);
    case _ =>
  }

  lemma ReadHistory(w: World, n: nat, rows: seq<Row>)
    requires HistoryOk(w, WATERMARK_MS) && Enabled(w, Read(n, rows))
    ensures HistoryOk(Next(w, Read(n, rows)), WATERMARK_MS)
  {
    var w' := Next(w, Read(n, rows));
    HistoryStays(w, w', WATERMARK_MS);
    assert TaskOk(w', w.tasks[n], WATERMARK_MS);
    assert TaskOk(w', w'.tasks[n], WATERMARK_MS);
  }

  lemma IngestHistory(w: World, n: nat)
    requires HistoryOk(w, WATERMARK_MS) && Enabled(w, IngestEnds(n))
    ensures HistoryOk(Next(w, IngestEnds(n)), WATERMARK_MS)
  {
    var w' := Next(w, IngestEnds(n));
    HistoryStays(w, w', WATERMARK_MS);
    assert TaskOk(w', w.tasks[n], WATERMARK_MS);
    assert TaskOk(w', w'.tasks[n], WATERMARK_MS);
  }

  lemma {:induction false} RunHistory(w: World, ts: seq<Step>)
    requires HistoryOk(w, WATERMARK_MS) && ValidRun(w, ts, WATERMARK_MS)
    ensures HistoryOk(Run(w, ts, WATERMARK_MS), WATERMARK_MS)
    decreases |ts|
  {
    if ts != [] {
      StepHistory(w, ts[0]);
      RunHistory(Next(w, ts[0]), ts[1..]);
    }
  }

  /**
   If every hello arrives within the watermark, and the requests of the sessions it speaks for are its
   own daemon's, every request retired synthetically had died before the hello was built, and is dead.
   */
  lemma NeverRetiresLive(ts: seq<Step>, k: nat)
    requires ValidRun(Start, ts, WATERMARK_MS) && k < |Run(Start, ts, WATERMARK_MS).retired|
    ensures var w := Run(Start, ts, WATERMARK_MS);
      RetiredOk(w, w.retired[k])
  {
    RunHistory(Start, ts);
  }

  /**
   A hello starts a reconciliation exactly if it speaks for 1 to 1024 sessions, declares at most 1024 ids,
   all of the current form, and fewer than four are running.
   */
  lemma HelloStartsIff(w: World, h: Hello, sessions: set<string>, n: nat)
    requires Enabled(w, Receive(h, sessions, n))
    ensures var w' := Next(w, Receive(h, sessions, n));
      if 1 <= |sessions| <= 1024 && |h.declared| <= 1024 && w.running < 4 && (forall id :: id in h.declared ==> IsCanonical(id))
      then w' == w.(tasks := w.tasks[n := Reading(Signal(h, sessions, w.clock))], running := w.running + 1)
      else w' == w
  {
  }

  /** A look at a row retires it exactly if its id is undeclared, of a retirable form and not being ingested, and was asked more than two seconds before the hello came. */
  lemma LookRetiresIff(w: World, n: nat)
    requires Enabled(w, Look(n)) && w.tasks[n].next < |w.tasks[n].rows|
    ensures var t := w.tasks[n];
      var row, w' := t.rows[t.next], LookStep(w, n);
      if && row.id !in t.signal.hello.declared && Retirable(row.id) && row.id !in w.inFlight
         && row.askedAt.Some? && row.askedAt.value + 2000 < t.signal.receivedAt
      then
        && w'.retired == w.retired + [Retired(row.id, t.signal)] && w'.inFlight == w.inFlight + {row.id}
        && w'.tasks == w.tasks[n := Ingesting(t.signal, t.rows, t.next)] && w'.skips == w.skips
      else
        && w'.retired == w.retired && w'.inFlight == w.inFlight
        && w'.tasks == w.tasks[n := Scanning(t.signal, t.rows, t.next + 1)]
        && w'.skips == w.skips + if row.id in t.signal.hello.declared || Retirable(row.id) then 0 else 1
  {
  }

  /** The end of an ingest frees its id and the scan goes on with the row after it; nothing else changes. */
  lemma IngestMovesOn(w: World, n: nat)
    requires Enabled(w, IngestEnds(n))
    ensures var w', t := Next(w, IngestEnds(n)), w.tasks[n];
      && n in w'.tasks && w'.tasks[n].Scanning? && w'.tasks[n].signal == t.signal && w'.tasks[n].rows == t.rows
      && w'.tasks[n].next == t.next + 1
      && w' == w.(inFlight := w.inFlight - {t.rows[t.next].id}, tasks := w.tasks[n := w'.tasks[n]])
  {
  }

  /** And what was dead then is retired: a scan that comes to its row, of a retirable form and older than the watermark, retires it. */
  lemma DeadRowIsRetired(w: World, n: nat)
    requires HistoryOk(w, WATERMARK_MS) && Enabled(w, Look(n)) && w.tasks[n].next < |w.tasks[n].rows|
    ensures var t := w.tasks[n];
      var row := t.rows[t.next];
      && (row.id !in t.signal.hello.living && Retirable(row.id) && row.id !in w.inFlight
          && row.askedAt.Some? && row.askedAt.value < t.signal.receivedAt - WATERMARK_MS
          ==> LookStep(w, n).retired == w.retired + [Retired(row.id, t.signal)])
      && (row.id in t.signal.hello.declared ==> LookStep(w, n).retired == w.retired)
  {
    assert TaskOk(w, w.tasks[n], WATERMARK_MS);
  }

  // ---------------------------------------------------------------------------------------------
  // The bound is exact.
  // ---------------------------------------------------------------------------------------------

  /** A hello leaves; a request is asked and stored at once; the hello arrives after `delay`, and the request is looked at. */
  function LateRun(delay: nat, id: string): seq<Step> {
    var h := Hello(0, {}, 0, {}, {});
    [SendHello(0), Ask(id, "s", 0), Store(id, true), Tick(delay), Receive(h, {"s"}, 0),
     Read(0, [Row("s", id, Some(0))]), Look(0)]
  }

  /** Any delay beyond the watermark can cost a live request. */
  lemma LateHelloRetiresLive(delay: nat, id: string)
    requires delay > WATERMARK_MS && IsCanonical(id)
    ensures ValidRun(Start, LateRun(delay, id), delay)
    ensures var w := Run(Start, LateRun(delay, id), delay);
      |w.retired| == 1 && w.retired[0].id == id && id in w.requests && w.requests[id].alive
  {
    var worlds := seq(8, n requires 0 <= n < 8 => LateWorld(delay, id, n));
    forall k | 0 <= k < 7 ensures Leads(worlds[k], LateRun(delay, id)[k], delay, worlds[k + 1]) {
      LateLeads(delay, id, k);
    }
    RunAlong(worlds, LateRun(delay, id), delay);
  }

  /** The world after each step of that run. */
  function LateWorld(delay: nat, id: string, n: nat): World {
    var h, row := Hello(0, {}, 0, {}, {}), Row("s", id, Some(0));
    var sg := Signal(h, {"s"}, delay);
    var tasks := if n < 5 then map[] else if n == 5 then map[0 := Reading(sg)] else if n == 6 then map[0 := Scanning(sg, [row], 0)] else map[0 := Ingesting(sg, [row], 0)];
    World(
      if n < 4 then 0 else delay,
      if n < 2 then map[] else map[id := Request("s", 0, 0, true)],
      if n < 3 then {} else {row},
      if n < 1 then {} else {h},
      tasks,
      if n < 5 then 0 else 1,
      if n < 7 then {} else {id},
      0,
      if n < 7 then [] else [Retired(id, sg)])
  }

  lemma LateLeads(delay: nat, id: string, k: nat)
    requires delay > WATERMARK_MS && IsCanonical(id) && k < 7
    ensures Leads(LateWorld(delay, id, k), LateRun(delay, id)[k], delay, LateWorld(delay, id, k + 1))
  {
    if k == 0 {
      assert Snapshot(Start, 0) == Hello(0, {}, 0, {}, {});
    } else if k == 4 {
      LateReceive(delay, id);
    } else if k == 6 {
      LateLook(delay, id);
    }
  }

  lemma LateReceive(delay: nat, id: string)
    ensures Leads(LateWorld(delay, id, 4), Receive(Hello(0, {}, 0, {}, {}), {"s"}, 0), delay, LateWorld(delay, id, 5))
  {
    assert Acceptable(Hello(0, {}, 0, {}, {}), {"s"});
  }

  lemma LateLook(delay: nat, id: string)
    requires delay > WATERMARK_MS && IsCanonical(id)
    ensures Leads(LateWorld(delay, id, 6), Look(0), delay, LateWorld(delay, id, 7))
  {
    var w, sg := LateWorld(delay, id, 6), Signal(Hello(0, {}, 0, {}, {}), {"s"}, delay);
    assert w.tasks[0] == Scanning(sg, [Row("s", id, Some(0))], 0);
    assert Stale(sg, Row("s", id, Some(0)));
  }

  /** A run through given worlds, each step leading to the next. */
  lemma {:induction false} RunAlong(worlds: seq<World>, ts: seq<Step>, d: int)
    requires |worlds| == |ts| + 1 && forall k :: 0 <= k < |ts| ==> Leads(worlds[k], ts[k], d, worlds[k + 1])
    ensures ValidRun(worlds[0], ts, d) && Run(worlds[0], ts, d) == worlds[|ts|]
    decreases |ts|
  {
    if ts != [] {
      var later, more := worlds[1..], ts[1..];
      forall k | 0 <= k < |more| ensures Leads(later[k], more[k], d, later[k + 1]) {
        assert Leads(worlds[k + 1], ts[k + 1], d, worlds[k + 2]);
      }
      RunAlong(later, more, d);
      assert Leads(worlds[0], ts[0], d, worlds[1]);
    }
  }

  predicate Leads(w: World, t: Step, d: int, w': World) {
    Enabled(w, t) && Timely(w, t, d) && Next(w, t) == w'
  }

  // ---------------------------------------------------------------------------------------------
  // The reconciler object: the segments of one reconcile between its suspension points.
  // ---------------------------------------------------------------------------------------------

  predicate Mangled(sg: Signal, row: Row) {
    row.id !in sg.hello.declared && !Retirable(row.id)
  }

  /** How many of these rows are undeclared and of no retirable form. */
  function MangledCount(sg: Signal, rows: seq<Row>): nat {
    if rows == [] then 0
    else MangledCount(sg, rows[..|rows| - 1]) + if Mangled(sg, rows[|rows| - 1]) then 1 else 0
  }

  lemma MangledSnoc(sg: Signal, rows: seq<Row>, from: nat, k: nat)
    requires from <= k < |rows|
    ensures MangledCount(sg, rows[from..k + 1]) == MangledCount(sg, rows[from..k]) + if Mangled(sg, rows[k]) then 1 else 0
  {
    assert rows[from..k + 1] == rows[from..k] + [rows[k]];
    assert rows[from..k + 1][..k - from] == rows[from..k];
  }

  /** c looks of one task can be taken in a row. */
  predicate CanLook(w: World, n: nat, c: nat)
    decreases c, 0
  {
    c == 0 || (CanLook(w, n, c - 1) && Enabled(LookRun(w, n, c - 1), Look(n)))
  }

  /** The world after c looks of one task. */
  function LookRun(w: World, n: nat, c: nat): World
    requires CanLook(w, n, c)
    decreases c, 1
  {
    if c == 0 then w else LookStep(LookRun(w, n, c - 1), n)
  }

  /** Looks in a row are a run of the step system. */
  lemma {:induction false} LookRunIsRun(w: World, n: nat, c: nat, delay: int)
    requires CanLook(w, n, c)
    ensures var ts := seq(c, _ => Look(n));
      ValidRun(w, ts, delay) && Run(w, ts, delay) == LookRun(w, n, c)
  {
    if c > 0 {
      var ts, before := seq(c, _ => Look(n)), seq(c - 1, _ => Look(n));
      LookRunIsRun(w, n, c - 1, delay);
      assert ts == before + [Look(n)];
      RunSnoc(w, before, Look(n), delay);
    }
  }

  lemma {:induction false} RunSnoc(w: World, ts: seq<Step>, t: Step, delay: int)
    requires ValidRun(w, ts, delay) && Enabled(Run(w, ts, delay), t) && Timely(Run(w, ts, delay), t, delay)
    ensures ValidRun(w, ts + [t], delay) && Run(w, ts + [t], delay) == Next(Run(w, ts, delay), t)
    decreases |ts|
  {
    if ts == [] {
      assert ts + [t] == [t] && [t][1..] == [];
    } else {
      assert (ts + [t])[1..] == ts[1..] + [t];
      RunSnoc(Next(w, ts[0]), ts[1..], t, delay);
    }
  }

  /** The world in which a scan has passed over the rows before k. */
  function Passed(w: World, n: nat, sg: Signal, rows: seq<Row>, k: nat, skips: nat): World {
    w.(tasks := w.tasks[n := Scanning(sg, rows, k)], skips := skips)
  }

  /** The scan stands at row k, after k - from looks. */
  ghost predicate StandsAt(w: World, n: nat, sg: Signal, rows: seq<Row>, from: nat, k: nat, skips: nat)
    requires from <= k
  {
    CanLook(w, n, k - from) && LookRun(w, n, k - from) == Passed(w, n, sg, rows, k, skips)
  }

  /** What one look more leads to, from where the scan stands. */
  lemma LookOn(w: World, n: nat, sg: Signal, rows: seq<Row>, from: nat, k: nat, skips: nat)
    requires from <= k && w.running > 0 && StandsAt(w, n, sg, rows, from, k, skips)
    ensures CanLook(w, n, k - from + 1)
    ensures LookRun(w, n, k - from + 1) == LookStep(Passed(w, n, sg, rows, k, skips), n)
  {
  }

  lemma LookPasses(w: World, n: nat, sg: Signal, rows: seq<Row>, from: nat, k: nat, skips: nat)
    requires from <= k < |rows| && w.running > 0 && StandsAt(w, n, sg, rows, from, k, skips)
    requires !(Stale(sg, rows[k]) && rows[k].id !in w.inFlight)
    ensures StandsAt(w, n, sg, rows, from, k + 1, skips + if Mangled(sg, rows[k]) then 1 else 0)
  {
    LookOn(w, n, sg, rows, from, k, skips);
    var p := Passed(w, n, sg, rows, k, skips);
    assert p.tasks[n := Scanning(sg, rows, k + 1)] == w.tasks[n := Scanning(sg, rows, k + 1)];
  }

  /**
   The looks from row `from` to row k lead to a world with these counters, in which row k is in flight,
   or, past the last row, to one in which the task is gone.
   */
  ghost predicate LookedTo(
    w: World, n: nat, sg: Signal, rows: seq<Row>, from: nat, k: nat, inFlight: set<string>, running: nat, skips: nat)
    requires from <= k
  {
    && CanLook(w, n, k - from + 1)
    && var w' := LookRun(w, n, k - from + 1);
       && w'.inFlight == inFlight && w'.running == running && w'.skips == skips
       && if k < |rows| then
            && n in w'.tasks && w'.tasks[n] == Ingesting(sg, rows, k)
            && w'.retired == w.retired + [Retired(rows[k].id, sg)]
          else n !in w'.tasks && w'.retired == w.retired
  }

  lemma LookRetires(w: World, n: nat, sg: Signal, rows: seq<Row>, from: nat, k: nat, skips: nat)
    requires from <= k < |rows| && w.running > 0 && StandsAt(w, n, sg, rows, from, k, skips)
    requires Stale(sg, rows[k]) && rows[k].id !in w.inFlight
    ensures LookedTo(w, n, sg, rows, from, k, w.inFlight + {rows[k].id}, w.running, skips)
  {
    LookOn(w, n, sg, rows, from, k, skips);
  }

  lemma LookEnds(w: World, n: nat, sg: Signal, rows: seq<Row>, from: nat, skips: nat)
    requires from <= |rows| && w.running > 0 && StandsAt(w, n, sg, rows, from, |rows|, skips)
    ensures LookedTo(w, n, sg, rows, from, |rows|, w.inFlight, w.running - 1, skips)
  {
    LookOn(w, n, sg, rows, from, |rows|, skips);
  }

  lemma StandsAtStart(w: World, n: nat, sg: Signal, rows: seq<Row>, from: nat)
    requires n in w.tasks && w.tasks[n] == Scanning(sg, rows, from)
    ensures StandsAt(w, n, sg, rows, from, from, w.skips)
  {
    assert w.tasks[n := Scanning(sg, rows, from)] == w.tasks;
  }

  class Reconciler {
    var inFlight: set<string>
    var running: nat
    var nonRetirableSkips: nat

    constructor ()
      ensures inFlight == {} && running == 0 && nonRetirableSkips == 0
    {
      inFlight, running, nonRetirableSkips := {}, 0, 0;
    }

    /** The object's fields are those of the world. */
    ghost predicate Mirrors(w: World)
      reads this
    {
      inFlight == w.inFlight && running == w.running && nonRetirableSkips == w.skips
    }

    /** A signal is dropped when four reconciles are already running: the receiving step. */
    method Begin(ghost w: World, ghost h: Hello, ghost sessions: set<string>, ghost n: nat) returns (admitted: bool)
      requires Mirrors(w) && Enabled(w, Receive(h, sessions, n)) && Acceptable(h, sessions)
      modifies this
      ensures Mirrors(Next(w, Receive(h, sessions, n)))
      ensures admitted <==> n in Next(w, Receive(h, sessions, n)).tasks
      ensures admitted <==> old(running) < MAX_RUNNING
    {
      admitted := running < MAX_RUNNING;
      if admitted {
        running := running + 1;
      }
    }

    /** The table could not be read: nothing is retired and the reconcile ends. */
    method ReadFailed(ghost w: World, ghost n: nat)
      requires Mirrors(w) && Enabled(w, ReadFails(n))
      modifies this
      ensures Mirrors(Next(w, ReadFails(n)))
    {
      running := running - 1;
    }

    /** One row: put in flight if it is to be retired, passed over otherwise. */
    method Consider(sg: Signal, row: Row) returns (retire: bool)
      modifies this`inFlight, this`nonRetirableSkips
      ensures retire <==> Stale(sg, row) && row.id !in old(inFlight)
      ensures inFlight == old(inFlight) + if retire then {row.id} else {}
      ensures nonRetirableSkips == old(nonRetirableSkips) + if Mangled(sg, row) then 1 else 0
    {
      retire := false;
      if row.id in sg.hello.declared {
        return;
      }
      if !Retirable(row.id) {
        nonRetirableSkips := nonRetirableSkips + 1;
        return;
      }
      if row.askedAt.None? || !(row.askedAt.value < sg.receivedAt - WATERMARK_MS) || row.id in inFlight {
        return;
      }
      inFlight := inFlight + {row.id};
      retire := true;
    }

    /** Over the rows that are not to be retired, to the first that is, which goes in flight, or to the end. */
    method PassRows(sg: Signal, rows: seq<Row>, from: nat, ghost w: World, ghost n: nat) returns (k: nat)
      requires from <= |rows| && Mirrors(w) && w.running > 0
      requires n in w.tasks && w.tasks[n] == Scanning(sg, rows, from)
      modifies this`inFlight, this`nonRetirableSkips
      ensures from <= k <= |rows|
      ensures forall j :: from <= j < k ==> !Stale(sg, rows[j]) || rows[j].id in old(inFlight)
      ensures k < |rows| ==> Stale(sg, rows[k]) && rows[k].id !in old(inFlight)
      ensures inFlight == old(inFlight) + if k < |rows| then {rows[k].id} else {}
      ensures nonRetirableSkips == old(nonRetirableSkips) + MangledCount(sg, rows[from..k])
      ensures k < |rows| ==> LookedTo(w, n, sg, rows, from, k, inFlight, running, nonRetirableSkips)
      ensures k == |rows| ==> StandsAt(w, n, sg, rows, from, k, nonRetirableSkips)
    {
      k := from;
      StandsAtStart(w, n, sg, rows, from);
      while k < |rows|
        invariant from <= k <= |rows| && inFlight == w.inFlight
        invariant forall j :: from <= j < k ==> !Stale(sg, rows[j]) || rows[j].id in inFlight
        invariant nonRetirableSkips == old(nonRetirableSkips) + MangledCount(sg, rows[from..k])
        invariant StandsAt(w, n, sg, rows, from, k, nonRetirableSkips)
      {
        ghost var skips := nonRetirableSkips;
        var retire := Consider(sg, rows[k]);
        if retire {
          LookRetires(w, n, sg, rows, from, k, skips);
          return;
        }
        LookPasses(w, n, sg, rows, from, k, skips);
        MangledSnoc(sg, rows, from, k);
        k := k + 1;
      }
    }

    /**
     From row `from` to the next row to retire, which goes in flight; or to the end, which ends the
     reconcile.  It is k - from + 1 looks of the step system in a row.
     */
    method Scan(sg: Signal, rows: seq<Row>, from: nat, ghost w: World, ghost n: nat) returns (k: nat)
      requires from <= |rows| && Mirrors(w) && w.running > 0
      requires n in w.tasks && w.tasks[n] == Scanning(sg, rows, from)
      modifies this
      ensures from <= k <= |rows|
      ensures forall j :: from <= j < k ==> !Stale(sg, rows[j]) || rows[j].id in old(inFlight)
      ensures k < |rows| ==> Stale(sg, rows[k]) && rows[k].id !in old(inFlight)
      ensures inFlight == old(inFlight) + if k < |rows| then {rows[k].id} else {}
      ensures running == old(running) - if k < |rows| then 0 else 1
      ensures nonRetirableSkips == old(nonRetirableSkips) + MangledCount(sg, rows[from..k])
      ensures LookedTo(w, n, sg, rows, from, k, inFlight, running, nonRetirableSkips)
    {
      k := PassRows(sg, rows, from, w, n);
      if k == |rows| {
        LookEnds(w, n, sg, rows, from, nonRetirableSkips);
        running := running - 1;
      }
    }

    /** The synthetic ingest of a row came to its end, well or not. */
    method IngestDone(id: string, ghost w: World, ghost n: nat)
      requires Mirrors(w) && Enabled(w, IngestEnds(n)) && w.tasks[n].rows[w.tasks[n].next].id == id
      modifies this
      ensures Mirrors(Next(w, IngestEnds(n)))
    {
      inFlight := inFlight - {id};
    }
  }
}
