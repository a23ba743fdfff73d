/**
 Liveness: what was last observed of a session, and whether it is live, idle, stalled or unknown.

 The declarative aggregate `IsAggregate` is what the production SQL query asks for (per-signal
 maxima, and the process state of the heartbeat greatest by timestamp and then event id); the fold
 over the events is proved to compute it, whatever the order and however often events repeat.
 */
module Liveness {
  import opened Options
  import opened TextOrder

  /** The `process_alive` payload field: absent, a JSON boolean, or some other JSON value. */
  datatype AliveField = Absent | JsonBool(b: bool) | OtherJson

  /** The parts of a stored event that liveness reads; the timestamp is `None` when it does not parse. */
  datatype Event = Event(
    event_id: string, event_type: string, timestamp: Option<int>, alive: AliveField,
    resolution_origin: Option<string>)

  const STDOUT_TYPES := {"command.output.delta", "tool.output.delta"}
  const FILE_TYPES := {"file.change.proposed", "file.change.approved", "file.change.applied", "diff.updated"}
  const MODEL_TYPES := {"agent.message.delta", "agent.reasoning_summary.delta"}
  const HEARTBEAT := "heartbeat"
  const PERMISSION_RESOLVED := "tool.permission.resolved"
  const RELAY_LOST := "relay_lost"

  datatype Process = Process(alive: bool, atMs: int)

  datatype Observation = Observation(
    process: Option<Process>, event: Option<int>, stdout: Option<int>, file: Option<int>,
    modelStream: Option<int>)

  // ---------------------------------------------------------------------------------------------
  // The declarative aggregate.
  // ---------------------------------------------------------------------------------------------

  /** A heartbeat that reports the process dead, or a backend-made retirement: not activity. */
  predicate IsActivity(e: Event) {
    && !(e.event_type == HEARTBEAT && e.alive == JsonBool(false))
    && !(e.event_type == PERMISSION_RESOLVED && e.resolution_origin == Some(RELAY_LOST))
  }

  predicate IsStdout(e: Event) { e.event_type in STDOUT_TYPES }
  predicate IsFile(e: Event) { e.event_type in FILE_TYPES }
  predicate IsModelStream(e: Event) { e.event_type in MODEL_TYPES }

  predicate IsTypedHeartbeat(e: Event) {
    e.event_type == HEARTBEAT && e.alive.JsonBool? && e.timestamp.Some?
  }

  /** `max(timestamp) FILTER (WHERE sel)`: the greatest timestamp among the selected events, if any. */
  ghost predicate IsMax(evs: seq<Event>, sel: Event -> bool, r: Option<int>) {
    match r
    case None => forall e :: e in evs && sel(e) ==> e.timestamp.None?
    case Some(t) =>
      && (exists e :: e in evs && sel(e) && e.timestamp == Some(t))
      && (forall e :: e in evs && sel(e) && e.timestamp.Some? ==> e.timestamp.value <= t)
  }

  function KeyOf(e: Event): Key
    requires e.timestamp.Some?
  {
    Key(e.timestamp.value, e.event_id)
  }

  /** `e` is the first row of `ORDER BY timestamp DESC, event_id DESC` among the typed heartbeats. */
  ghost predicate IsLatestHeartbeat(evs: seq<Event>, e: Event) {
    && e in evs && IsTypedHeartbeat(e)
    && (forall f :: f in evs && IsTypedHeartbeat(f) ==> !Before(KeyOf(e), KeyOf(f)))
  }

  ghost predicate IsProcess(evs: seq<Event>, r: Option<Process>) {
    match r
    case None => forall e :: e in evs ==> !IsTypedHeartbeat(e)
    case Some(p) =>
      exists e :: IsLatestHeartbeat(evs, e) && p == Process(e.alive.b, e.timestamp.value)
  }

  ghost predicate IsAggregate(evs: seq<Event>, obs: Observation) {
    && IsMax(evs, IsActivity, obs.event)
    && IsMax(evs, IsStdout, obs.stdout)
    && IsMax(evs, IsFile, obs.file)
    && IsMax(evs, IsModelStream, obs.modelStream)
    && IsProcess(evs, obs.process)
  }

  // ---------------------------------------------------------------------------------------------
  // The fold.
  // ---------------------------------------------------------------------------------------------

  function Max(a: Option<int>, b: int): Option<int> {
    if a.None? || a.value < b then Some(b) else a
  }

  lemma MaxStep(evs: seq<Event>, e: Event, sel: Event -> bool, r: Option<int>)
    requires IsMax(evs, sel, r)
    ensures IsMax(evs + [e], sel, if sel(e) && e.timestamp.Some? then Max(r, e.timestamp.value) else r)
  {
    var r' := if sel(e) && e.timestamp.Some? then Max(r, e.timestamp.value) else r;
    var all := evs + [e];
    assert all[|evs|] == e && e in all;
    if r'.Some? {
      if r' == r {
        var w :| w in evs && sel(w) && w.timestamp == r;
        assert w in all;
      } else {
        assert e in all && sel(e) && e.timestamp == r';
      }
    }
  }

  lemma LatestStep(evs: seq<Event>, e: Event, best: Option<Event>)
    requires best.None? ==> forall f :: f in evs ==> !IsTypedHeartbeat(f)
    requires best.Some? ==> IsLatestHeartbeat(evs, best.value)
    ensures !IsTypedHeartbeat(e) && best.None? ==> forall f :: f in evs + [e] ==> !IsTypedHeartbeat(f)
    ensures !IsTypedHeartbeat(e) && best.Some? ==> IsLatestHeartbeat(evs + [e], best.value)
    ensures IsTypedHeartbeat(e) && (best.None? || Before(KeyOf(best.value), KeyOf(e))) ==> IsLatestHeartbeat(evs + [e], e)
    ensures IsTypedHeartbeat(e) && best.Some? && !Before(KeyOf(best.value), KeyOf(e)) ==> IsLatestHeartbeat(evs + [e], best.value)
  {
    var all := evs + [e];
    assert all[|evs|] == e && e in all;
    if best.Some? {
      assert best.value in all;
    }
    if IsTypedHeartbeat(e) {
      BeforeTotal(KeyOf(e), KeyOf(e));
      if best.Some? && Before(KeyOf(best.value), KeyOf(e)) {
        forall f | f in evs && IsTypedHeartbeat(f) ensures !Before(KeyOf(e), KeyOf(f)) {
          if Before(KeyOf(e), KeyOf(f)) {
            BeforeTransitive(KeyOf(best.value), KeyOf(e), KeyOf(f));
          }
        }
      }
    }
  }

  /** The fold over the events computes the aggregate. */
  method ObserveFromEvents(evs: seq<Event>) returns (obs: Observation)
    ensures IsAggregate(evs, obs)
  {
    var event: Option<int>, stdout: Option<int>, file: Option<int>, modelStream: Option<int> := None, None, None, None;
    var process: Option<Process> := None;
    var processEventId := "";
    ghost var best: Option<Event> := None;
    for i := 0 to |evs|
      invariant IsMax(evs[..i], IsActivity, event)
      invariant IsMax(evs[..i], IsStdout, stdout)
      invariant IsMax(evs[..i], IsFile, file)
      invariant IsMax(evs[..i], IsModelStream, modelStream)
      invariant best.None? ==> process.None? && forall f :: f in evs[..i] ==> !IsTypedHeartbeat(f)
      invariant best.Some? ==>
        (IsLatestHeartbeat(evs[..i], best.value)
         && process == Some(Process(best.value.alive.b, best.value.timestamp.value))
         && processEventId == best.value.event_id)
    {
      var ev := evs[i];
      assert evs[..i + 1] == evs[..i] + [ev];
      MaxStep(evs[..i], ev, IsActivity, event);
      MaxStep(evs[..i], ev, IsStdout, stdout);
      MaxStep(evs[..i], ev, IsFile, file);
      MaxStep(evs[..i], ev, IsModelStream, modelStream);
      LatestStep(evs[..i], ev, best);
      if ev.timestamp.None? {
        continue;
      }
      var t := ev.timestamp.value;
      var countsAsActivity := true;
      var heartbeatAlive: Option<bool> := None;
      if ev.event_type == HEARTBEAT {
        if ev.alive.JsonBool? {
          heartbeatAlive := Some(ev.alive.b);
          if !ev.alive.b {
            countsAsActivity := false;
          }
        }
      } else if ev.event_type == PERMISSION_RESOLVED {
        if ev.resolution_origin == Some(RELAY_LOST) {
          countsAsActivity := false;
        }
      }
      if countsAsActivity {
        event := Max(event, t);
      }
      TypesDisjoint(ev);
      if ev.event_type in STDOUT_TYPES {
        stdout := Max(stdout, t);
      } else if ev.event_type in FILE_TYPES {
        file := Max(file, t);
      } else if ev.event_type in MODEL_TYPES {
        modelStream := Max(modelStream, t);
      } else if ev.event_type == HEARTBEAT && heartbeatAlive.Some? {
        var wins := process.None? || t > process.value.atMs
                    || (t == process.value.atMs && Less(processEventId, ev.event_id));
        if wins {
          process := Some(Process(heartbeatAlive.value, t));
          processEventId := ev.event_id;
          best := Some(ev);
        }
      }
    }
    assert evs[..|evs|] == evs;
    obs := Observation(process, event, stdout, file, modelStream);
    assert best.Some? ==> IsLatestHeartbeat(evs, best.value);
  }

  lemma TypesDisjoint(e: Event)
    ensures IsStdout(e) ==> !IsFile(e) && !IsModelStream(e) && e.event_type != HEARTBEAT
    ensures IsFile(e) ==> !IsModelStream(e) && e.event_type != HEARTBEAT
    ensures IsModelStream(e) ==> e.event_type != HEARTBEAT
    ensures HEARTBEAT != PERMISSION_RESOLVED
  {
  }

  // ---------------------------------------------------------------------------------------------
  // Order and repetition do not matter.
  // ---------------------------------------------------------------------------------------------

  /** `event_id` identifies an event, as the store's uniqueness constraint guarantees. */
  predicate UniqueIds(evs: seq<Event>) {
    forall e, f :: e in evs && f in evs && e.event_id == f.event_id ==> e == f
  }

  predicate SameEvents(xs: seq<Event>, ys: seq<Event>) {
    (forall e :: e in xs ==> e in ys) && (forall e :: e in ys ==> e in xs)
  }

  lemma MaxUnique(xs: seq<Event>, ys: seq<Event>, sel: Event -> bool, a: Option<int>, b: Option<int>)
    requires SameEvents(xs, ys) && IsMax(xs, sel, a) && IsMax(ys, sel, b)
    ensures a == b
  {
    if a.Some? {
      var e :| e in xs && sel(e) && e.timestamp == a;
      assert e in ys;
    }
    if b.Some? {
      var e :| e in ys && sel(e) && e.timestamp == b;
      assert e in xs;
    }
  }

  lemma ProcessUnique(xs: seq<Event>, ys: seq<Event>, p: Option<Process>, q: Option<Process>)
    requires SameEvents(xs, ys) && UniqueIds(xs) && IsProcess(xs, p) && IsProcess(ys, q)
    ensures p == q
  {
    if p.Some? {
      var e :| IsLatestHeartbeat(xs, e) && p.value == Process(e.alive.b, e.timestamp.value);
      assert e in ys;
      if q.Some? {
        var f :| IsLatestHeartbeat(ys, f) && q.value == Process(f.alive.b, f.timestamp.value);
        assert f in xs;
        BeforeTotal(KeyOf(e), KeyOf(f));
      }
    }
  }

  /** Any two observations of the same events agree, in whatever order and however often they were seen. */
  lemma AggregateUnique(xs: seq<Event>, ys: seq<Event>, a: Observation, b: Observation)
    requires SameEvents(xs, ys) && UniqueIds(xs)
    requires IsAggregate(xs, a) && IsAggregate(ys, b)
    ensures a == b
  {
    MaxUnique(xs, ys, IsActivity, a.event, b.event);
    MaxUnique(xs, ys, IsStdout, a.stdout, b.stdout);
    MaxUnique(xs, ys, IsFile, a.file, b.file);
    MaxUnique(xs, ys, IsModelStream, a.modelStream, b.modelStream);
    ProcessUnique(xs, ys, a.process, b.process);
  }

  /** A retirement the backend itself wrote is invisible to liveness. */
  lemma SyntheticRetireInvisible(evs: seq<Event>, e: Event, obs: Observation)
    requires e.event_type == PERMISSION_RESOLVED && e.resolution_origin == Some(RELAY_LOST)
    requires IsAggregate(evs, obs)
    ensures IsAggregate(evs + [e], obs)
  {
    MaxStep(evs, e, IsActivity, obs.event);
    MaxStep(evs, e, IsStdout, obs.stdout);
    MaxStep(evs, e, IsFile, obs.file);
    MaxStep(evs, e, IsModelStream, obs.modelStream);
    assert !IsStdout(e) && !IsFile(e) && !IsModelStream(e) && !IsTypedHeartbeat(e);
    if obs.process.Some? {
      var h :| IsLatestHeartbeat(evs, h) && obs.process.value == Process(h.alive.b, h.timestamp.value);
      LatestStep(evs, e, Some(h));
      assert IsLatestHeartbeat(evs + [e], h);
    }
  }

  // ---------------------------------------------------------------------------------------------
  // Synthesis.
  // ---------------------------------------------------------------------------------------------

  datatype State = Live | Idle | Stalled | Unknown

  datatype SignalEvidence = SignalEvidence(ageMs: int, isFresh: bool)
  datatype ProcessEvidence = ProcessEvidence(alive: bool, ageMs: int, isFresh: bool)

  datatype Result = Result(
    state: State, process: Option<ProcessEvidence>, signals: seq<Option<SignalEvidence>>,
    evaluatedAtMs: int, stalledSuspected: bool)

  function AgeMs(now: int, atMs: int): int {
    if now - atMs > 0 then now - atMs else 0
  }

  predicate Fresh(now: int, stale: int, atMs: int) {
    AgeMs(now, atMs) <= stale
  }

  function Signals(obs: Observation): seq<Option<int>> {
    [obs.event, obs.stdout, obs.file, obs.modelStream]
  }

  function EvidenceOf(sig: Option<int>, now: int, stale: int): Option<SignalEvidence> {
    if sig.None? then None else Some(SignalEvidence(AgeMs(now, sig.value), Fresh(now, stale, sig.value)))
  }

  predicate Observed(obs: Observation) {
    obs.process.Some? || exists i :: 0 <= i < 4 && Signals(obs)[i].Some?
  }

  /** Something observed is fresh: a living process, or any other signal. */
  predicate AnyFresh(obs: Observation, now: int, stale: int) {
    || (obs.process.Some? && obs.process.value.alive && Fresh(now, stale, obs.process.value.atMs))
    || exists i :: 0 <= i < 4 && Signals(obs)[i].Some? && Fresh(now, stale, Signals(obs)[i].value)
  }

  predicate SeenDead(obs: Observation) {
    obs.process.Some? && !obs.process.value.alive
  }

  /** Seen within the last `stale` milliseconds. */
  predicate Recent(at: Option<int>, now: int, stale: int) {
    at.Some? && 0 <= stale && now - at.value <= stale
  }

  /** Something was seen recently: the process alive, an event, output, a file change or model output. */
  predicate SeenRecently(obs: Observation, now: int, stale: int) {
    || (obs.process.Some? && obs.process.value.alive && Recent(Some(obs.process.value.atMs), now, stale))
    || Recent(obs.event, now, stale) || Recent(obs.stdout, now, stale)
    || Recent(obs.file, now, stale) || Recent(obs.modelStream, now, stale)
  }

  /** The evidence shown for a time: its age, never negative, and whether that is recent. */
  predicate ShowsAge(e: Option<SignalEvidence>, at: Option<int>, now: int, stale: int) {
    && (e.Some? <==> at.Some?)
    && (e.Some? && now >= at.value ==> e.value.ageMs == now - at.value)
    && (e.Some? && now <= at.value ==> e.value.ageMs == 0)
    && (e.Some? ==> (e.value.isFresh <==> Recent(at, now, stale)))
  }

  lemma FreshIsRecent(obs: Observation, now: int, stale: int)
    ensures AnyFresh(obs, now, stale) <==> SeenRecently(obs, now, stale)
    ensures Observed(obs) <==>
      obs.process.Some? || obs.event.Some? || obs.stdout.Some? || obs.file.Some? || obs.modelStream.Some?
    ensures forall i :: 0 <= i < 4 ==> ShowsAge(EvidenceOf(Signals(obs)[i], now, stale), Signals(obs)[i], now, stale)
  {
    var s := Signals(obs);
    assert s[0] == obs.event && s[1] == obs.stdout && s[2] == obs.file && s[3] == obs.modelStream;
  }

  /** The state is decided by evidence: stalled needs an observed dead process and nothing fresh. */
  method SynthesizeLiveness(obs: Observation, now: int, stale: int) returns (r: Result)
    ensures r.state == Unknown <==>
      obs.process.None? && obs.event.None? && obs.stdout.None? && obs.file.None? && obs.modelStream.None?
    ensures r.state == Live <==> SeenRecently(obs, now, stale)
    ensures r.state == Stalled <==> obs.process.Some? && !obs.process.value.alive && !SeenRecently(obs, now, stale)
    ensures r.stalledSuspected <==> r.state == Stalled
    ensures r.evaluatedAtMs == now
    ensures |r.signals| == 4
    ensures ShowsAge(r.signals[0], obs.event, now, stale) && ShowsAge(r.signals[1], obs.stdout, now, stale)
    ensures ShowsAge(r.signals[2], obs.file, now, stale) && ShowsAge(r.signals[3], obs.modelStream, now, stale)
    ensures r.process.Some? <==> obs.process.Some?
    ensures r.process.Some? ==>
      && r.process.value.alive == obs.process.value.alive
      && ShowsAge(Some(SignalEvidence(r.process.value.ageMs, r.process.value.isFresh)), Some(obs.process.value.atMs), now, stale)
  {
    var signals: seq<Option<SignalEvidence>> := [];
    var freshFlags: seq<bool> := [];
    var anyObserved, processDead := false, false;
    var process: Option<ProcessEvidence> := None;
    if obs.process.Some? {
      anyObserved := true;
      var age := AgeMs(now, obs.process.value.atMs);
      process := Some(ProcessEvidence(obs.process.value.alive, age, age <= stale));
      processDead := !obs.process.value.alive;
      freshFlags := [obs.process.value.alive && age <= stale];
    }
    ghost var processFresh := obs.process.Some? && obs.process.value.alive && Fresh(now, stale, obs.process.value.atMs);
    assert (true in freshFlags) == processFresh;
    for i := 0 to 4
      invariant |signals| == i
      invariant anyObserved <==> obs.process.Some? || exists j :: 0 <= j < i && Signals(obs)[j].Some?
      invariant (true in freshFlags) <==>
        (processFresh || exists j :: 0 <= j < i && Signals(obs)[j].Some? && Fresh(now, stale, Signals(obs)[j].value))
      invariant forall j :: 0 <= j < i ==> signals[j] == EvidenceOf(Signals(obs)[j], now, stale)
    {
      var sig := Signals(obs)[i];
      if sig.None? {
        signals := signals + [None];
      } else {
        anyObserved := true;
        var age := AgeMs(now, sig.value);
        signals := signals + [Some(SignalEvidence(age, age <= stale))];
        freshFlags := freshFlags + [age <= stale];
      }
    }
    var state :=
      if !anyObserved then Unknown
      else if true in freshFlags then Live
      else if processDead then Stalled
      else Idle;
    r := Result(state, process, signals, now, state == Stalled);
    FreshIsRecent(obs, now, stale);
  }

  /** Everything but a report of a dead process and a synthetic retirement. */
  predicate SignOfLife(e: Event) {
    && !(e.event_type == "heartbeat" && e.alive == JsonBool(false))
    && !(e.event_type == "tool.permission.resolved" && e.resolution_origin == Some("relay_lost"))
  }

  ghost predicate RecentSign(evs: seq<Event>, e: Event, now: int, stale: int) {
    e in evs && SignOfLife(e) && Recent(e.timestamp, now, stale)
  }

  /** From the events alone: a session is live exactly if some sign of life among them is recent. */
  lemma LiveIff(evs: seq<Event>, obs: Observation, now: int, stale: int)
    requires IsAggregate(evs, obs)
    ensures SeenRecently(obs, now, stale) <==> exists e :: RecentSign(evs, e, now, stale)
  {
    if e :| RecentSign(evs, e, now, stale) {
      assert IsActivity(e);
      assert Recent(obs.event, now, stale);
    }
    if SeenRecently(obs, now, stale) { LiveShowsSign(evs, obs, now, stale); }
  }

  lemma LiveShowsSign(evs: seq<Event>, obs: Observation, now: int, stale: int)
    requires IsAggregate(evs, obs) && SeenRecently(obs, now, stale)
    ensures exists e :: RecentSign(evs, e, now, stale)
  {
    if obs.process.Some? && obs.process.value.alive && Recent(Some(obs.process.value.atMs), now, stale) {
      var e :| IsLatestHeartbeat(evs, e) && obs.process.value == Process(e.alive.b, e.timestamp.value);
      TypesApart(e);
      assert RecentSign(evs, e, now, stale);
    } else if Recent(obs.event, now, stale) {
      var e :| e in evs && IsActivity(e) && e.timestamp == obs.event;
      assert RecentSign(evs, e, now, stale);
    } else if Recent(obs.stdout, now, stale) {
      var e :| e in evs && IsStdout(e) && e.timestamp == obs.stdout;
      TypesApart(e);
      assert RecentSign(evs, e, now, stale);
    } else if Recent(obs.file, now, stale) {
      var e :| e in evs && IsFile(e) && e.timestamp == obs.file;
      TypesApart(e);
      assert RecentSign(evs, e, now, stale);
    } else {
      var e :| e in evs && IsModelStream(e) && e.timestamp == obs.modelStream;
      TypesApart(e);
      assert RecentSign(evs, e, now, stale);
    }
  }

  /** Which event types feed which signal. */
  lemma SignalTypes(e: Event)
    ensures IsStdout(e) <==> e.event_type == "command.output.delta" || e.event_type == "tool.output.delta"
    ensures IsFile(e) <==>
      || e.event_type == "file.change.proposed" || e.event_type == "file.change.approved"
      || e.event_type == "file.change.applied" || e.event_type == "diff.updated"
    ensures IsModelStream(e) <==> e.event_type == "agent.message.delta" || e.event_type == "agent.reasoning_summary.delta"
    ensures IsTypedHeartbeat(e) <==> e.event_type == "heartbeat" && e.alive.JsonBool? && e.timestamp.Some?
  {
  }

  /** Output, file changes and model output are neither heartbeats nor resolutions. */
  lemma TypesApart(e: Event)
    ensures IsStdout(e) || IsFile(e) || IsModelStream(e) ==> e.event_type != "heartbeat" && e.event_type != "tool.permission.resolved"
    ensures e.event_type == "heartbeat" ==> e.event_type != "tool.permission.resolved"
  {
    assert |"heartbeat"| == 9 && |"tool.permission.resolved"| == 24;
    assert |"command.output.delta"| == 20 && |"tool.output.delta"| == 17 && |"diff.updated"| == 12;
    assert |"file.change.proposed"| == 20 && |"file.change.approved"| == 20 && |"file.change.applied"| == 19;
    assert |"agent.message.delta"| == 19 && |"agent.reasoning_summary.delta"| == 29;
  }

  /** With the events fixed, a later clock never makes anything fresh again: no return to live. */
  lemma NeverLiveAgain(obs: Observation, now: int, later: int, stale: int)
    requires now <= later && SeenRecently(obs, later, stale)
    ensures SeenRecently(obs, now, stale)
  {
  }

  /** If all that was ever seen is that the process is dead, the session is never live. */
  lemma DeathNoticesAreNotLife(evs: seq<Event>, obs: Observation, now: int, stale: int)
    requires IsAggregate(evs, obs)
    requires forall e :: e in evs ==> e.event_type == "heartbeat" && e.alive == JsonBool(false)
    ensures !SeenRecently(obs, now, stale)
  {
    LiveIff(evs, obs, now, stale);
  }
}
