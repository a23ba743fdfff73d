/**
 What each event does to the work items, said of the fold itself and not of its helpers.

 Main results: `TaskReportExact` and `PlanSnapshotExact` (which items a report or a plan snapshot
 creates, updates, removes and leaves alone), `ReopenForgetsClaim` and `ReclaimStartsOver`,
 `EndFreezes`, `DiffExact` with `FingerprintIdentifies`, and `OpenChecksExact` with `CheckBindsDirty`
 (which checks are open, and when a completed one is recorded as dirty).
 */
module WorkItemLaws {
  import opened Options
  import opened Hashing
  import opened Text
  import opened WorkItems

  // ---------------------------------------------------------------------------------------------
  // One report about one item.
  // ---------------------------------------------------------------------------------------------

  /** What a report says about an item. */
  datatype Report = Report(status: Status, subject: Option<string>, ordinal: Option<nat>, via: Option<string>, fidelity: Option<Fidelity>)

  /** Fidelities, best first. */
  const BEST_FIRST: seq<Fidelity> := [Authoritative, Observed, Parsed, Inferred, UnknownFidelity]

  predicate Better(f: Option<Fidelity>, g: Option<Fidelity>) {
    f.Some? && (g.None? || exists a, b :: 0 <= a < b < 5 && BEST_FIRST[a] == f.value && BEST_FIRST[b] == g.value)
  }

  predicate NoClaim(it: WorkItem) {
    it.claimed_at.None? && it.claim_event_id.None? && it.claim_method.None? && it.claim_fidelity.None?
  }

  predicate NoEvidence(it: WorkItem) {
    && it.verification_state == Unverified && it.verified_at.None? && it.verification_event_id.None?
    && it.check_kind.None? && it.check_match.None? && it.check_exit_code.None? && it.verified_tree_fp.None?
    && !it.run_dirty && it.stale_at.None? && it.stale_event_id.None?
  }

  predicate SameIdentity(a: WorkItem, b: WorkItem) {
    && a.session_id == b.session_id && a.work_item_id == b.work_item_id && a.id_scheme == b.id_scheme
    && a.created_at == b.created_at && a.created_event_id == b.created_event_id
  }

  predicate SameClaim(a: WorkItem, b: WorkItem) {
    && a.claimed_at == b.claimed_at && a.claim_event_id == b.claim_event_id
    && a.claim_method == b.claim_method && a.claim_fidelity == b.claim_fidelity
  }

  /** The recorded check, apart from whether it still counts. */
  predicate SameCheck(a: WorkItem, b: WorkItem) {
    && a.verified_at == b.verified_at && a.verification_event_id == b.verification_event_id
    && a.check_kind == b.check_kind && a.check_match == b.check_match && a.check_exit_code == b.check_exit_code
    && a.verified_tree_fp == b.verified_tree_fp && a.run_dirty == b.run_dirty
    && a.stale_at == b.stale_at && a.stale_event_id == b.stale_event_id
  }

  /** A report seen first: a new item, with a claim exactly if it says completed, and no evidence. */
  predicate Created(it: WorkItem, scheme: Scheme, id: string, r: Report, ev: Event) {
    && it.session_id == ev.session_id && it.work_item_id == id && it.id_scheme == scheme
    && it.created_at == ev.timestamp && it.created_event_id == ev.event_id && it.updated_at == ev.timestamp
    && it.status == r.status && it.subject == r.subject && it.ordinal == r.ordinal
    && (r.status != Completed ==> NoClaim(it))
    && (r.status == Completed ==> it.claimed_at == Some(ev.timestamp) && it.claim_event_id == Some(ev.event_id)
                                  && it.claim_method == r.via && it.claim_fidelity == r.fidelity)
    && NoEvidence(it)
  }

  /**
   A report about a known item: status and time are the report's, subject and ordinal only if it has them.
   Leaving `completed` withdraws claim and evidence; entering it makes a new claim, unverified, dated as
   before if a date is still there; a repeated claim only gains in fidelity; anything else keeps both.
   */
  predicate Updated(was: WorkItem, now: WorkItem, r: Report, ev: Event) {
    && SameIdentity(was, now) && now.status == r.status && now.updated_at == ev.timestamp
    && now.subject == (if r.subject.Some? then r.subject else was.subject)
    && now.ordinal == (if r.ordinal.Some? then r.ordinal else was.ordinal)
    && (was.status == Completed && r.status != Completed ==> NoClaim(now) && NoEvidence(now))
    && (was.status != Completed && r.status != Completed ==>
          SameClaim(was, now) && SameCheck(was, now) && now.verification_state == was.verification_state)
    && (was.status != Completed && r.status == Completed ==> Claimed(was, now, r, ev))
    && (was.status == Completed && r.status == Completed ==> ClaimedAgain(was, now, r))
  }

  predicate Claimed(was: WorkItem, now: WorkItem, r: Report, ev: Event) {
    && now.claimed_at == Some(if was.claimed_at.Some? then was.claimed_at.value else ev.timestamp)
    && now.claim_event_id == Some(ev.event_id) && now.claim_method == r.via && now.claim_fidelity == r.fidelity
    && now.verification_state == Unverified && SameCheck(was, now)
  }

  predicate ClaimedAgain(was: WorkItem, now: WorkItem, r: Report) {
    && now.claimed_at == was.claimed_at && now.claim_event_id == was.claim_event_id
    && SameCheck(was, now) && now.verification_state == was.verification_state
    && (Better(r.fidelity, was.claim_fidelity) ==> now.claim_method == r.via && now.claim_fidelity == r.fidelity)
    && (!Better(r.fidelity, was.claim_fidelity) ==> SameClaim(was, now))
  }

  lemma RankIsOrder(f: Option<Fidelity>, g: Option<Fidelity>)
    ensures FidelityRank(f) > FidelityRank(g) <==> Better(f, g)
  {
    if f.Some? && g.Some? {
      assert BEST_FIRST[4 - FidelityRank(f)] == f.value && BEST_FIRST[4 - FidelityRank(g)] == g.value;
    }
  }

  /** An item listed by its id, or as many as there are. */
  predicate HasId(items: seq<WorkItem>, id: string) {
    exists k :: 0 <= k < |items| && items[k].work_item_id == id
  }

  /** One report about one id, and nothing else. */
  predicate Reported(p: Projection, q: Projection, scheme: Scheme, id: string, r: Report, ev: Event) {
    && q.(items := p.items, dropped_count := p.dropped_count) == p
    && |p.items| <= |q.items|
    && (forall k :: 0 <= k < |p.items| ==>
          if p.items[k].work_item_id == id then Updated(p.items[k], q.items[k], r, ev) else q.items[k] == p.items[k])
    && (HasId(p.items, id) ==> |q.items| == |p.items| && q.dropped_count == p.dropped_count)
    && (!HasId(p.items, id) && |p.items| < 200 ==>
          |q.items| == |p.items| + 1 && Created(q.items[|p.items|], scheme, id, r, ev) && q.dropped_count == p.dropped_count)
    && (!HasId(p.items, id) && |p.items| >= 200 ==> |q.items| == |p.items| && q.dropped_count == p.dropped_count + 1)
  }

  lemma UpsertReports(p: Projection, u: Upsert, ev: Event)
    requires DistinctIds(p.items)
    ensures Reported(p, UpsertItem(p, u, ev), u.scheme, u.id, Report(u.status, u.subject, u.ordinal, u.via, u.fidelity), ev)
  {
    var k, q, r := Find(p.items, u.id), UpsertItem(p, u, ev), Report(u.status, u.subject, u.ordinal, u.via, u.fidelity);
    assert HasId(p.items, u.id) <==> k < |p.items|;
    if k < |p.items| {
      ItemUpdated(p.items[k], u, ev);
      assert forall i :: 0 <= i < |p.items| ==> (p.items[i].work_item_id == u.id <==> i == k);
    } else if |p.items| < MAX_WORK_ITEMS {
      ItemCreated(u, ev);
    }
  }

  lemma ItemUpdated(was: WorkItem, u: Upsert, ev: Event)
    ensures Updated(was, UpdatedItem(was, u, ev), Report(u.status, u.subject, u.ordinal, u.via, u.fidelity), ev)
  {
    if u.status == Completed && was.status == Completed { ItemClaimedAgain(was, u, ev); }
  }

  lemma ItemClaimedAgain(was: WorkItem, u: Upsert, ev: Event)
    requires u.status == Completed && was.status == Completed
    ensures ClaimedAgain(was, UpdatedItem(was, u, ev), Report(u.status, u.subject, u.ordinal, u.via, u.fidelity))
  {
    RankIsOrder(u.fidelity, was.claim_fidelity);
  }

  lemma ItemCreated(u: Upsert, ev: Event)
    ensures Created(NewItem(u, ev), u.scheme, u.id, Report(u.status, u.subject, u.ordinal, u.via, u.fidelity), ev)
  {
  }

  /** A text of at most 200 characters as it is, a longer one cut there and marked. */
  predicate Bounded(s: Option<string>, r: Option<string>) {
    && (s.None? ==> r.None?)
    && (s.Some? && |s.value| <= 200 ==> r == s)
    && (s.Some? && |s.value| > 200 ==> r.Some? && |r.value| == 201 && r.value[..200] == s.value[..200] && r.value[200] == '\U{2026}')
  }

  /**
   A task report touches the item of its task alone: it is created or updated as the report says, or, if
   it is new and 200 items are there, only counted.  A report without a task id does nothing.
   */
  lemma TaskReportExact(H: Sha256, sid: string, evs: seq<Event>, ev: Event)
    requires ev.payload.WorkItemUpdated? && !IsTerminal(ev) && !Fold(H, sid, evs).frozen
    ensures var p, q, w := Fold(H, sid, evs), Fold(H, sid, evs + [ev]), ev.payload;
      if w.providerTaskId.None? then q == p
      else exists subject ::
        && Bounded(w.subject, subject)
        && Reported(p, q, Task, DeriveWorkItemId(H, Task, w.providerTaskId.value), Report(w.status, subject, None, w.via, w.fidelity), ev)
  {
    var p, w := Fold(H, sid, evs), ev.payload;
    assert (evs + [ev])[..|evs|] == evs;
    FoldSound(H, sid, evs);
    if w.providerTaskId.Some? {
      var u := Upsert(DeriveWorkItemId(H, Task, w.providerTaskId.value), Task, w.status, BoundSummary(w.subject), None, w.via, w.fidelity);
      UpsertReports(p, u, ev);
      assert Bounded(w.subject, u.subject);
    }
  }

  /** The event reports this status of a task. */
  predicate ReportsTask(ev: Event, task: string, status: Status) {
    ev.payload.WorkItemUpdated? && ev.payload.providerTaskId == Some(task) && ev.payload.status == status && !IsTerminal(ev)
  }

  /**
   A completed task reported as anything else keeps no claim, no evidence and no badge; completed again
   later, its claim is the new report's, made then, and rests on nothing but itself.
   */
  lemma ReopenAndReclaim(H: Sha256, sid: string, evs: seq<Event>, e1: Event, e2: Event, task: string, status: Status, k: nat)
    requires !Fold(H, sid, evs).frozen && k < |Fold(H, sid, evs).items|
    requires Fold(H, sid, evs).items[k].work_item_id == DeriveWorkItemId(H, Task, task) && Fold(H, sid, evs).items[k].status == Completed
    requires ReportsTask(e1, task, status) && status != Completed && ReportsTask(e2, task, Completed)
    ensures var p, q := Fold(H, sid, evs + [e1]), Fold(H, sid, evs + [e1] + [e2]);
      && k < |p.items| && NoClaim(p.items[k]) && NoEvidence(p.items[k]) && DeriveBadge(p.items[k]) == None
      && k < |q.items| && NoEvidence(q.items[k]) && DeriveBadge(q.items[k]) == Some(SelfClaimed)
      && q.items[k].claimed_at == Some(e2.timestamp) && q.items[k].claim_event_id == Some(e2.event_id)
  {
    TaskReportExact(H, sid, evs, e1);
    assert HasId(Fold(H, sid, evs).items, DeriveWorkItemId(H, Task, task));
    var p := Fold(H, sid, evs + [e1]);
    assert HasId(p.items, DeriveWorkItemId(H, Task, task));
    TaskReportExact(H, sid, evs + [e1], e2);
  }

  // ---------------------------------------------------------------------------------------------
  // Identifiers.
  // ---------------------------------------------------------------------------------------------

  /** What an id is derived from: a plan step is known by its text without outer white space. */
  function IdText(scheme: Scheme, text: string): string {
    if scheme == Plan then Trim(text) else text
  }

  /** Ids are equal exactly for one scheme and one text, or for texts whose digests agree in their first sixteen digits. */
  lemma IdsTellApart(H: Sha256, s: Scheme, a: string, t: Scheme, b: string)
    ensures DeriveWorkItemId(H, s, a) == DeriveWorkItemId(H, t, b) <==>
      s == t && (IdText(s, a) == IdText(t, b) || H(IdText(s, a))[..16] == H(IdText(t, b))[..16])
  {
    var x, y := DeriveWorkItemId(H, s, a), DeriveWorkItemId(H, t, b);
    assert x[0] == (if s == Plan then 'p' else 't') && y[0] == if t == Plan then 'p' else 't';
    assert x[5..] == H(IdText(s, a))[..16] && y[5..] == H(IdText(t, b))[..16];
    assert x[..5] == (if s == Plan then "plan:" else "task:") && y[..5] == if t == Plan then "plan:" else "task:";
    assert x == x[..5] + x[5..] && y == y[..5] + y[5..];
  }

  /** An item's id shows its scheme. */
  predicate SchemesShow(items: seq<WorkItem>) {
    forall k :: 0 <= k < |items| ==> (items[k].id_scheme == Plan <==> "plan:" <= items[k].work_item_id)
  }

  lemma DerivedShows(H: Sha256, scheme: Scheme, text: string)
    ensures scheme == Plan <==> "plan:" <= DeriveWorkItemId(H, scheme, text)
  {
    var id := DeriveWorkItemId(H, scheme, text);
    assert id[..5] == if scheme == Plan then "plan:" else "task:";
    assert "plan:"[0] == 'p' && "task:"[0] == 't';
  }

  lemma ReportShows(p: Projection, q: Projection, scheme: Scheme, id: string, r: Report, ev: Event)
    requires Reported(p, q, scheme, id, r, ev) && SchemesShow(p.items) && (scheme == Plan <==> "plan:" <= id)
    ensures SchemesShow(q.items)
  {
    forall k | 0 <= k < |q.items| ensures q.items[k].id_scheme == Plan <==> "plan:" <= q.items[k].work_item_id {
      if k < |p.items| {
        assert SameIdentity(p.items[k], q.items[k]);
      }
    }
  }

  // ---------------------------------------------------------------------------------------------
  // Plan snapshots.
  // ---------------------------------------------------------------------------------------------

  /** Position j of a snapshot lists the plan item with this id. */
  predicate Lists(H: Sha256, steps: seq<PlanStep>, j: nat, id: string) {
    j < |steps| && steps[j].step.Some? && DeriveWorkItemId(H, Plan, steps[j].step.value) == id
  }

  predicate ListedFrom(H: Sha256, steps: seq<PlanStep>, i: nat, id: string) {
    exists j :: i <= j < |steps| && Lists(H, steps, j, id)
  }

  predicate LastListed(H: Sha256, steps: seq<PlanStep>, j: nat, id: string) {
    Lists(H, steps, j, id) && !ListedFrom(H, steps, j + 1, id)
  }

  predicate ListedOnce(H: Sha256, steps: seq<PlanStep>, i: nat, j: nat, id: string) {
    i <= j && Lists(H, steps, j, id) && forall m :: i <= m < |steps| && Lists(H, steps, m, id) ==> m == j
  }

  function StepReport(steps: seq<PlanStep>, j: nat, subject: Option<string>): Report
    requires j < |steps|
  {
    Report(steps[j].status, subject, Some(j), None, None)
  }

  /** The item says what position j of the snapshot says. */
  predicate SaysStep(it: WorkItem, steps: seq<PlanStep>, j: nat, ev: Event)
    requires j < |steps|
  {
    it.status == steps[j].status && it.ordinal == Some(j) && Bounded(steps[j].step, it.subject) && it.updated_at == ev.timestamp
  }

  /** The ids listed from position i on that are not known yet, each once, in the order they first appear. */
  function NewIds(H: Sha256, steps: seq<PlanStep>, i: nat, known: set<string>): seq<string>
    requires i <= |steps|
    decreases |steps| - i
  {
    if i == |steps| then []
    else if steps[i].step.None? then NewIds(H, steps, i + 1, known)
    else
      var id := DeriveWorkItemId(H, Plan, steps[i].step.value);
      if id in known then NewIds(H, steps, i + 1, known) else [id] + NewIds(H, steps, i + 1, known + {id})
  }

  function IdSet(items: seq<WorkItem>): set<string> {
    set k | 0 <= k < |items| :: items[k].work_item_id
  }

  function Room(ids: seq<string>, taken: nat): (r: seq<string>)
    ensures r <= ids
  {
    if taken >= 200 then [] else if |ids| <= 200 - taken then ids else ids[..200 - taken]
  }

  /** How many positions from i on list an id that is not among these items. */
  function Missing(H: Sha256, steps: seq<PlanStep>, i: nat, items: seq<WorkItem>): nat
    requires i <= |steps|
    decreases |steps| - i
  {
    if i == |steps| then 0
    else
      Missing(H, steps, i + 1, items)
      + if steps[i].step.Some? && !HasId(items, DeriveWorkItemId(H, Plan, steps[i].step.value)) then 1 else 0
  }

  // The snapshot as a trace: the projections before each position and after the last.

  /** One position: a malformed step does nothing, any other reports its item. */
  predicate StepDone(H: Sha256, p: Projection, m: Projection, steps: seq<PlanStep>, i: nat, ev: Event)
    requires i < |steps|
  {
    if steps[i].step.None? then m == p
    else Reported(p, m, Plan, DeriveWorkItemId(H, Plan, steps[i].step.value), StepReport(steps, i, BoundSummary(steps[i].step)), ev)
  }

  predicate DoneAt(H: Sha256, ms: seq<Projection>, steps: seq<PlanStep>, i: nat, ev: Event) {
    && i < |steps| && i + 1 < |ms|
    && StepDone(H, ms[i], ms[i + 1], steps, i, ev) && DistinctIds(ms[i].items) && DistinctIds(ms[i + 1].items)
    && (|ms[i].items| <= 200 ==> |ms[i + 1].items| <= 200)
  }

  predicate Trace(H: Sha256, ms: seq<Projection>, steps: seq<PlanStep>, ev: Event) {
    |ms| == |steps| + 1 && forall i: nat :: i < |steps| ==> DoneAt(H, ms, steps, i, ev)
  }

  /** A trace of the first n positions, ending with p. */
  predicate TraceTo(H: Sha256, ms: seq<Projection>, n: nat, p: Projection, steps: seq<PlanStep>, ev: Event) {
    |ms| == n + 1 && n <= |steps| && ms[n] == p && DistinctIds(p.items) && forall i: nat :: i < n ==> DoneAt(H, ms, steps, i, ev)
  }

  /** Any trace of the first positions can be completed, and ends with what the rest of the snapshot reports. */
  lemma {:induction false} TraceOn(
    H: Sha256, ms: seq<Projection>, n: nat, p: Projection, steps: seq<PlanStep>, ev: Event, q: Projection)
    returns (all: seq<Projection>)
    requires TraceTo(H, ms, n, p, steps, ev) && q == UpsertSteps(H, p, steps, n, ev)
    ensures TraceTo(H, all, |steps|, q, steps, ev) && all[0] == ms[0]
    decreases |steps| - n
  {
    if n == |steps| {
      all := ms;
    } else {
      var m := OneStep(H, p, steps, n, ev);
      TraceGrows(H, ms, n, p, m, steps, ev);
      all := TraceOn(H, ms + [m], n + 1, m, steps, ev, q);
    }
  }

  lemma TraceGrows(H: Sha256, ms: seq<Projection>, n: nat, p: Projection, m: Projection, steps: seq<PlanStep>, ev: Event)
    requires TraceTo(H, ms, n, p, steps, ev) && n < |steps| && DistinctIds(m.items)
    requires StepDone(H, p, m, steps, n, ev) && (|p.items| <= 200 ==> |m.items| <= 200)
    ensures TraceTo(H, ms + [m], n + 1, m, steps, ev)
  {
    forall i: nat | i < n + 1 ensures DoneAt(H, ms + [m], steps, i, ev) {
      if i < n { assert DoneAt(H, ms, steps, i, ev); }
    }
  }

  lemma OneStep(H: Sha256, p: Projection, steps: seq<PlanStep>, i: nat, ev: Event) returns (m: Projection)
    requires i < |steps| && DistinctIds(p.items)
    ensures StepDone(H, p, m, steps, i, ev) && DistinctIds(m.items) && (|p.items| <= 200 ==> |m.items| <= 200)
    ensures UpsertSteps(H, p, steps, i, ev) == UpsertSteps(H, m, steps, i + 1, ev)
  {
    m := p;
    if steps[i].step.Some? {
      m := UpsertItem(p, StepUpsert(H, steps[i], i), ev);
      UpsertReports(p, StepUpsert(H, steps[i], i), ev);
      UpsertGrows(p, StepUpsert(H, steps[i], i), ev);
    }
  }

  lemma TraceOf(H: Sha256, p: Projection, steps: seq<PlanStep>, ev: Event) returns (ms: seq<Projection>)
    requires DistinctIds(p.items)
    ensures Trace(H, ms, steps, ev) && ms[0] == p && ms[|steps|] == UpsertSteps(H, p, steps, 0, ev)
  {
    ms := TraceOn(H, [p], 0, p, steps, ev, UpsertSteps(H, p, steps, 0, ev));
  }

  lemma {:induction false} Untouched(H: Sha256, ms: seq<Projection>, steps: seq<PlanStep>, i: nat, ev: Event, k: nat)
    requires Trace(H, ms, steps, ev) && i <= |steps| && k < |ms[i].items| && !ListedFrom(H, steps, i, ms[i].items[k].work_item_id)
    ensures k < |ms[|steps|].items| && ms[|steps|].items[k] == ms[i].items[k]
    decreases |steps| - i
  {
    if i < |steps| {
      assert DoneAt(H, ms, steps, i, ev) && !Lists(H, steps, i, ms[i].items[k].work_item_id);
      Untouched(H, ms, steps, i + 1, ev, k);
    }
  }

  lemma {:induction false} Identity(H: Sha256, ms: seq<Projection>, steps: seq<PlanStep>, i: nat, ev: Event, k: nat)
    requires Trace(H, ms, steps, ev) && i <= |steps| && k < |ms[i].items|
    ensures k < |ms[|steps|].items| && SameIdentity(ms[i].items[k], ms[|steps|].items[k])
    decreases |steps| - i
  {
    if i < |steps| {
      assert DoneAt(H, ms, steps, i, ev);
      StepIdentity(H, ms[i], ms[i + 1], steps, i, ev, k);
      Identity(H, ms, steps, i + 1, ev, k);
    }
  }

  lemma StepIdentity(H: Sha256, p: Projection, m: Projection, steps: seq<PlanStep>, i: nat, ev: Event, k: nat)
    requires i < |steps| && StepDone(H, p, m, steps, i, ev) && k < |p.items|
    ensures k < |m.items| && SameIdentity(p.items[k], m.items[k])
  {
  }

  /** Items a snapshot adds are listed in it, and are plan items made by it. */
  lemma {:induction false} Added(H: Sha256, ms: seq<Projection>, steps: seq<PlanStep>, i: nat, ev: Event, k: nat)
    requires Trace(H, ms, steps, ev) && i <= |steps| && |ms[i].items| <= k < |ms[|steps|].items|
    ensures var it := ms[|steps|].items[k];
      && ListedFrom(H, steps, i, it.work_item_id) && it.id_scheme == Plan && it.session_id == ev.session_id
      && it.created_at == ev.timestamp && it.created_event_id == ev.event_id
    decreases |steps| - i
  {
    assert DoneAt(H, ms, steps, i, ev);
    if |ms[i + 1].items| <= k {
      Added(H, ms, steps, i + 1, ev, k);
    } else {
      Identity(H, ms, steps, i + 1, ev, k);
      assert Lists(H, steps, i, ms[|steps|].items[k].work_item_id);
    }
  }

  /** What position i reports, when the item it is about is not listed again. */
  lemma LastReport(H: Sha256, ms: seq<Projection>, steps: seq<PlanStep>, i: nat, ev: Event, k: nat)
    requires Trace(H, ms, steps, ev) && i < |steps| && k < |ms[|steps|].items|
    requires LastListed(H, steps, i, ms[|steps|].items[k].work_item_id)
    ensures ByOneReport(ms[i], ms[|steps|].items[k], k, steps, i, ev)
  {
    var it := ms[|steps|].items[k];
    if |ms[i + 1].items| <= k {
      Added(H, ms, steps, i + 1, ev, k);
    } else {
      Identity(H, ms, steps, i + 1, ev, k);
      Untouched(H, ms, steps, i + 1, ev, k);
      assert DoneAt(H, ms, steps, i, ev);
      ReportAbout(ms[i], ms[i + 1], Plan, it.work_item_id, StepReport(steps, i, BoundSummary(steps[i].step)), ev, k);
    }
  }

  lemma ReportAbout(p: Projection, m: Projection, scheme: Scheme, id: string, r: Report, ev: Event, k: nat)
    requires Reported(p, m, scheme, id, r, ev) && k < |m.items| && m.items[k].work_item_id == id && r.subject.Some?
    ensures m.items[k].subject == r.subject
    ensures if k < |p.items| then Updated(p.items[k], m.items[k], r, ev) else Created(m.items[k], scheme, id, r, ev)
  {
  }

  /** The item was updated, or created, by the one report of position j. */
  predicate ByOneReport(p: Projection, it: WorkItem, k: nat, steps: seq<PlanStep>, j: nat, ev: Event)
    requires j < |steps|
  {
    var r := StepReport(steps, j, it.subject);
    && Bounded(steps[j].step, it.subject)
    && if k < |p.items| then Updated(p.items[k], it, r, ev) else Created(it, Plan, it.work_item_id, r, ev)
  }

  /** An item says what the last position that lists it says. */
  lemma LastSays(H: Sha256, ms: seq<Projection>, steps: seq<PlanStep>, j: nat, ev: Event, k: nat)
    requires Trace(H, ms, steps, ev) && j < |steps| && k < |ms[|steps|].items|
    requires LastListed(H, steps, j, ms[|steps|].items[k].work_item_id)
    ensures SaysStep(ms[|steps|].items[k], steps, j, ev)
  {
    LastReport(H, ms, steps, j, ev, k);
  }

  /** A position that does not list an item leaves it alone, and does not make it. */
  lemma NotThisStep(H: Sha256, ms: seq<Projection>, steps: seq<PlanStep>, i: nat, ev: Event, k: nat)
    requires Trace(H, ms, steps, ev) && i < |steps| && k < |ms[|steps|].items|
    requires !Lists(H, steps, i, ms[|steps|].items[k].work_item_id)
    ensures (k < |ms[i + 1].items| <==> k < |ms[i].items|) && (k < |ms[i].items| ==> ms[i + 1].items[k] == ms[i].items[k])
  {
    assert DoneAt(H, ms, steps, i, ev);
    if k < |ms[i + 1].items| { Identity(H, ms, steps, i + 1, ev, k); }
  }

  /** An item listed once is updated, or created, by that one report. */
  lemma {:induction false} Once(H: Sha256, ms: seq<Projection>, steps: seq<PlanStep>, i: nat, ev: Event, k: nat, j: nat)
    requires Trace(H, ms, steps, ev) && i <= |steps| && k < |ms[|steps|].items|
    requires ListedOnce(H, steps, i, j, ms[|steps|].items[k].work_item_id)
    ensures ByOneReport(ms[i], ms[|steps|].items[k], k, steps, j, ev)
    decreases |steps| - i
  {
    var id := ms[|steps|].items[k].work_item_id;
    if i < j {
      OnceLater(H, steps, i, j, id);
      Once(H, ms, steps, i + 1, ev, k, j);
      NotThisStep(H, ms, steps, i, ev, k);
    } else {
      assert LastListed(H, steps, i, id);
      LastReport(H, ms, steps, i, ev, k);
    }
  }

  lemma OnceLater(H: Sha256, steps: seq<PlanStep>, i: nat, j: nat, id: string)
    requires ListedOnce(H, steps, i, j, id) && i < j
    ensures !Lists(H, steps, i, id) && ListedOnce(H, steps, i + 1, j, id)
  {
  }

  lemma IdSetHas(items: seq<WorkItem>, id: string)
    ensures id in IdSet(items) <==> HasId(items, id)
  {
  }

  /** Which ids a snapshot adds: the new ones in order, as far as there is room. */
  lemma {:induction false} AddedIds(H: Sha256, ms: seq<Projection>, steps: seq<PlanStep>, i: nat, ev: Event)
    requires Trace(H, ms, steps, ev) && i <= |steps| && |ms[i].items| <= 200
    ensures Ids(ms[|steps|].items) == Ids(ms[i].items) + Room(NewIds(H, steps, i, IdSet(ms[i].items)), |ms[i].items|)
    decreases |steps| - i
  {
    if i < |steps| {
      assert DoneAt(H, ms, steps, i, ev);
      AddedIds(H, ms, steps, i + 1, ev);
      if steps[i].step.Some? { StepIds(H, ms[i], ms[i + 1], steps, i, ev); }
    }
  }

  lemma {:induction false} StepIds(H: Sha256, p: Projection, m: Projection, steps: seq<PlanStep>, i: nat, ev: Event)
    requires i < |steps| && steps[i].step.Some? && |p.items| <= 200
    requires Reported(p, m, Plan, DeriveWorkItemId(H, Plan, steps[i].step.value), StepReport(steps, i, BoundSummary(steps[i].step)), ev)
    ensures Ids(m.items) + Room(NewIds(H, steps, i + 1, IdSet(m.items)), |m.items|) ==
            Ids(p.items) + Room(NewIds(H, steps, i, IdSet(p.items)), |p.items|)
  {
    var id, known := DeriveWorkItemId(H, Plan, steps[i].step.value), IdSet(p.items);
    IdSetHas(p.items, id);
    ReportedIds(p, m, Plan, id, StepReport(steps, i, BoundSummary(steps[i].step)), ev);
    if HasId(p.items, id) || |p.items| == 200 {
      SameIdSets(p.items, m.items);
      assert NewIds(H, steps, i, known) == if id in known then NewIds(H, steps, i + 1, known) else [id] + NewIds(H, steps, i + 1, known + {id});
    } else {
      IdSetGrows(p.items, m.items, id);
      RoomStep(id, NewIds(H, steps, i + 1, known + {id}), |p.items|);
      AppendAssoc(Ids(p.items), id, Room(NewIds(H, steps, i + 1, known + {id}), |p.items| + 1));
    }
  }

  lemma RoomStep(id: string, rest: seq<string>, taken: nat)
    requires taken < 200
    ensures Room([id] + rest, taken) == [id] + Room(rest, taken + 1)
  {
  }

  lemma AppendAssoc(a: seq<string>, id: string, b: seq<string>)
    ensures a + [id] + b == a + ([id] + b)
  {
  }

  lemma ReportedIds(p: Projection, m: Projection, scheme: Scheme, id: string, r: Report, ev: Event)
    requires Reported(p, m, scheme, id, r, ev)
    ensures Ids(m.items) == if HasId(p.items, id) || |p.items| >= 200 then Ids(p.items) else Ids(p.items) + [id]
  {
    forall k | 0 <= k < |p.items| ensures m.items[k].work_item_id == p.items[k].work_item_id {
      assert p.items[k] == m.items[k] || SameIdentity(p.items[k], m.items[k]);
    }
  }

  lemma SameIdSets(xs: seq<WorkItem>, ys: seq<WorkItem>)
    requires Ids(xs) == Ids(ys)
    ensures IdSet(xs) == IdSet(ys)
  {
    assert forall k :: 0 <= k < |xs| ==> xs[k].work_item_id == Ids(ys)[k] == ys[k].work_item_id;
  }

  lemma IdSetGrows(xs: seq<WorkItem>, ys: seq<WorkItem>, id: string)
    requires Ids(ys) == Ids(xs) + [id]
    ensures IdSet(ys) == IdSet(xs) + {id}
  {
    assert |ys| == |xs| + 1 && ys[|xs|].work_item_id == Ids(ys)[|xs|] == id;
    assert forall k :: 0 <= k < |xs| ==> ys[k].work_item_id == Ids(ys)[k] == xs[k].work_item_id;
  }

  lemma {:induction false} Dropped(H: Sha256, ms: seq<Projection>, steps: seq<PlanStep>, i: nat, ev: Event)
    requires Trace(H, ms, steps, ev) && i <= |steps| && |ms[i].items| <= 200
    ensures var p, q := ms[i], ms[|steps|];
      && q.dropped_count == p.dropped_count + Missing(H, steps, i, q.items)
      && q.(items := p.items, dropped_count := p.dropped_count) == p
    decreases |steps| - i
  {
    if i < |steps| {
      assert DoneAt(H, ms, steps, i, ev);
      Dropped(H, ms, steps, i + 1, ev);
      if steps[i].step.Some? { StepDropped(H, ms, steps, i, ev); }
    }
  }

  /** A step is dropped at its position exactly if it is not among the items in the end. */
  lemma {:induction false} StepDropped(H: Sha256, ms: seq<Projection>, steps: seq<PlanStep>, i: nat, ev: Event)
    requires Trace(H, ms, steps, ev) && i < |steps| && steps[i].step.Some? && |ms[i].items| <= 200
    ensures ms[i + 1].dropped_count ==
      ms[i].dropped_count + if HasId(ms[|steps|].items, DeriveWorkItemId(H, Plan, steps[i].step.value)) then 0 else 1
  {
    var id, p, q := DeriveWorkItemId(H, Plan, steps[i].step.value), ms[i], ms[|steps|];
    assert DoneAt(H, ms, steps, i, ev);
    if HasId(p.items, id) {
      var k :| 0 <= k < |p.items| && p.items[k].work_item_id == id;
      Identity(H, ms, steps, i, ev, k);
    } else if |p.items| < 200 {
      Identity(H, ms, steps, i + 1, ev, |p.items|);
      assert q.items[|p.items|].work_item_id == id;
    } else {
      AddedIds(H, ms, steps, i, ev);
      assert Ids(q.items) == Ids(p.items);
      forall k | 0 <= k < |q.items| ensures q.items[k].work_item_id != id {
        assert q.items[k].work_item_id == Ids(q.items)[k] == Ids(p.items)[k] == p.items[k].work_item_id;
      }
    }
  }

  lemma RemovalShows(items: seq<WorkItem>, seen: set<string>, ev: Event)
    requires SchemesShow(items)
    ensures SchemesShow(RemoveAbsent(items, seen, ev))
  {
  }

  lemma {:induction false} TraceShows(H: Sha256, ms: seq<Projection>, steps: seq<PlanStep>, i: nat, ev: Event)
    requires Trace(H, ms, steps, ev) && i <= |steps| && SchemesShow(ms[i].items)
    ensures SchemesShow(ms[|steps|].items)
    decreases |steps| - i
  {
    if i < |steps| {
      assert DoneAt(H, ms, steps, i, ev);
      if steps[i].step.Some? {
        DerivedShows(H, Plan, steps[i].step.value);
        ReportShows(ms[i], ms[i + 1], Plan, DeriveWorkItemId(H, Plan, steps[i].step.value),
                    StepReport(steps, i, BoundSummary(steps[i].step)), ev);
      }
      TraceShows(H, ms, steps, i + 1, ev);
    }
  }

  lemma ApplyShows(H: Sha256, p: Projection, ev: Event)
    requires DistinctIds(p.items) && SchemesShow(p.items)
    ensures SchemesShow(Apply(H, p, ev).items)
  {
    if !p.frozen && !IsTerminal(ev) {
      match ev.payload
      case WorkItemUpdated(t, st, su, v, f) =>
        if t.Some? {
          var u := Upsert(DeriveWorkItemId(H, Task, t.value), Task, st, BoundSummary(su), None, v, f);
          UpsertReports(p, u, ev);
          DerivedShows(H, Task, t.value);
          ReportShows(p, UpsertItem(p, u, ev), Task, u.id, Report(st, u.subject, None, v, f), ev);
        }
      case PlanUpdated(steps) =>
        if steps.Some? {
          var ms := TraceOf(H, p, steps.value, ev);
          TraceShows(H, ms, steps.value, 0, ev);
          RemovalShows(UpsertSteps(H, p, steps.value, 0, ev).items, SeenIds(H, steps.value), ev);
        }
      case _ =>
    }
  }

  lemma {:induction false} FoldShows(H: Sha256, sid: string, evs: seq<Event>)
    ensures SchemesShow(Fold(H, sid, evs).items)
  {
    if evs != [] {
      FoldShows(H, sid, evs[..|evs| - 1]);
      FoldSound(H, sid, evs[..|evs| - 1]);
      ApplyShows(H, Fold(H, sid, evs[..|evs| - 1]), evs[|evs| - 1]);
    }
  }

  /**
   What a snapshot makes of an item.  Listed, it says what the last position that lists it says, and
   listed once, it is created or updated by that one report.  Not listed, a plan item that is not yet
   removed becomes so, with claim and evidence kept, and anything else is as before.
   */
  ghost predicate AfterSnapshot(H: Sha256, p: Projection, it: WorkItem, k: nat, steps: seq<PlanStep>, ev: Event) {
    var id := it.work_item_id;
    && (k < |p.items| ==> SameIdentity(p.items[k], it))
    && (k >= |p.items| ==> it.id_scheme == Plan && it.session_id == ev.session_id && it.created_at == ev.timestamp
                           && it.created_event_id == ev.event_id && ListedFrom(H, steps, 0, id))
    && (forall j: nat :: j < |steps| && LastListed(H, steps, j, id) ==> SaysStep(it, steps, j, ev))
    && (forall j: nat :: j < |steps| && ListedOnce(H, steps, 0, j, id) ==> ByOneReport(p, it, k, steps, j, ev))
    && (!ListedFrom(H, steps, 0, id) ==>
          && k < |p.items|
          && it == if it.id_scheme == Plan && p.items[k].status != Removed
                   then p.items[k].(status := Removed, updated_at := ev.timestamp) else p.items[k])
    && (it.id_scheme == Task ==> !ListedFrom(H, steps, 0, id))
  }

  lemma SeenIsListed(H: Sha256, steps: seq<PlanStep>, id: string)
    ensures id in SeenIds(H, steps) <==> ListedFrom(H, steps, 0, id)
  {
    if ListedFrom(H, steps, 0, id) {
      var j :| 0 <= j < |steps| && Lists(H, steps, j, id);
      assert steps[j].step.Some? && DeriveWorkItemId(H, Plan, steps[j].step.value) == id;
    }
    if id in SeenIds(H, steps) {
      var j :| 0 <= j < |steps| && steps[j].step.Some? && DeriveWorkItemId(H, Plan, steps[j].step.value) == id;
      assert Lists(H, steps, j, id);
    }
  }

  /** The item after the reports, and after the removal of what is not listed. */
  lemma SnapshotItem(H: Sha256, ms: seq<Projection>, steps: seq<PlanStep>, ev: Event, k: nat)
    requires Trace(H, ms, steps, ev) && SchemesShow(ms[0].items) && k < |ms[|steps|].items|
    ensures AfterSnapshot(H, ms[0], RemoveAbsent(ms[|steps|].items, SeenIds(H, steps), ev)[k], k, steps, ev)
  {
    var it := ms[|steps|].items[k];
    SeenIsListed(H, steps, it.work_item_id);
    TraceShows(H, ms, steps, 0, ev);
    if k < |ms[0].items| { Identity(H, ms, steps, 0, ev, k); } else { Added(H, ms, steps, 0, ev, k); }
    if ListedFrom(H, steps, 0, it.work_item_id) {
      ListedItem(H, ms, steps, ev, k);
    } else {
      Untouched(H, ms, steps, 0, ev, k);
    }
  }

  lemma ListedItem(H: Sha256, ms: seq<Projection>, steps: seq<PlanStep>, ev: Event, k: nat)
    requires Trace(H, ms, steps, ev) && k < |ms[|steps|].items| && ListedFrom(H, steps, 0, ms[|steps|].items[k].work_item_id)
    ensures var it := ms[|steps|].items[k];
      && "plan:" <= it.work_item_id
      && (forall j: nat :: j < |steps| && LastListed(H, steps, j, it.work_item_id) ==> SaysStep(it, steps, j, ev))
      && (forall j: nat :: j < |steps| && ListedOnce(H, steps, 0, j, it.work_item_id) ==> ByOneReport(ms[0], it, k, steps, j, ev))
  {
    var it := ms[|steps|].items[k];
    var i :| 0 <= i < |steps| && Lists(H, steps, i, it.work_item_id);
    DerivedShows(H, Plan, steps[i].step.value);
    forall j: nat | j < |steps| && LastListed(H, steps, j, it.work_item_id) ensures SaysStep(it, steps, j, ev) {
      LastSays(H, ms, steps, j, ev, k);
    }
    forall j: nat | j < |steps| && ListedOnce(H, steps, 0, j, it.work_item_id) ensures ByOneReport(ms[0], it, k, steps, j, ev) {
      Once(H, ms, steps, 0, ev, k, j);
    }
  }

  /**
   A plan snapshot, in any history: it adds the new ids it lists, in order and as far as 200 items allow,
   counts each position whose item did not fit, makes of every item what `AfterSnapshot` says, and
   touches nothing else.  An event without typed steps does nothing.
   */
  lemma PlanSnapshotExact(H: Sha256, sid: string, evs: seq<Event>, ev: Event)
    requires ev.payload.PlanUpdated? && !IsTerminal(ev) && !Fold(H, sid, evs).frozen
    ensures var p, q := Fold(H, sid, evs), Fold(H, sid, evs + [ev]);
      match ev.payload.steps
      case None => q == p
      case Some(steps) =>
        && Ids(q.items) == Ids(p.items) + Room(NewIds(H, steps, 0, IdSet(p.items)), |p.items|)
        && q.dropped_count == p.dropped_count + Missing(H, steps, 0, q.items)
        && q.(items := p.items, dropped_count := p.dropped_count) == p
        && forall k: nat :: k < |q.items| ==> AfterSnapshot(H, p, q.items[k], k, steps, ev)
  {
    var p := Fold(H, sid, evs);
    assert (evs + [ev])[..|evs|] == evs;
    IdsOnlyGrow(H, sid, evs, |evs|);
    FoldShows(H, sid, evs);
    if ev.payload.steps.Some? {
      var steps := ev.payload.steps.value;
      var ms := TraceOf(H, p, steps, ev);
      var q := ApplyPlanSnapshot(H, p, ev);
      AddedIds(H, ms, steps, 0, ev);
      Dropped(H, ms, steps, 0, ev);
      RemovalKeepsIds(H, ms[|steps|].items, SeenIds(H, steps), ev, steps);
      forall k: nat | k < |q.items| ensures AfterSnapshot(H, p, q.items[k], k, steps, ev) {
        SnapshotItem(H, ms, steps, ev, k);
      }
    }
  }

  lemma RemovalKeepsIds(H: Sha256, items: seq<WorkItem>, seen: set<string>, ev: Event, steps: seq<PlanStep>)
    ensures Ids(RemoveAbsent(items, seen, ev)) == Ids(items)
    ensures Missing(H, steps, 0, RemoveAbsent(items, seen, ev)) == Missing(H, steps, 0, items)
  {
    SameIdsMissing(H, steps, 0, items, RemoveAbsent(items, seen, ev));
  }

  lemma {:induction false} SameIdsMissing(H: Sha256, steps: seq<PlanStep>, i: nat, xs: seq<WorkItem>, ys: seq<WorkItem>)
    requires i <= |steps| && |xs| == |ys| && forall k :: 0 <= k < |xs| ==> xs[k].work_item_id == ys[k].work_item_id
    ensures Missing(H, steps, i, xs) == Missing(H, steps, i, ys)
    decreases |steps| - i
  {
    if i < |steps| {
      SameIdsMissing(H, steps, i + 1, xs, ys);
      if steps[i].step.Some? {
        var id := DeriveWorkItemId(H, Plan, steps[i].step.value);
        assert HasId(xs, id) <==> HasId(ys, id) by {
          if HasId(xs, id) { var k :| 0 <= k < |xs| && xs[k].work_item_id == id; assert ys[k].work_item_id == id; }
          if HasId(ys, id) { var k :| 0 <= k < |ys| && ys[k].work_item_id == id; assert xs[k].work_item_id == id; }
        }
      }
    }
  }

  /** Without events there is nothing: no item, nothing dropped, no tree, no open check. */
  lemma FoldStartsEmpty(H: Sha256, sid: string)
    ensures var p := Fold(H, sid, []);
      p.session_id == sid && p.items == [] && p.dropped_count == 0 && !p.frozen && p.tree_fp == None && p.pending_checks == []
  {
  }

  // ---------------------------------------------------------------------------------------------
  // The end of a session.
  // ---------------------------------------------------------------------------------------------

  /** The session ends here: it says so, or the event carries one of the four final states. */
  predicate Ends(ev: Event) {
    ev.payload.SessionEnded? || ev.state in {Some("completed"), Some("failed"), Some("interrupted"), Some("suspended")}
  }

  lemma EndsIsTerminal(ev: Event)
    ensures Ends(ev) <==> IsTerminal(ev)
  {
    if ev.state.Some? {
      var states := ["completed", "failed", "interrupted", "suspended"];
      assert states[0] in states && states[1] in states && states[2] in states && states[3] in states;
    }
  }

  /** Nothing counts from the end on: the fold is what it was then, frozen, and it is frozen only by an end. */
  lemma {:induction false} EndFreezes(H: Sha256, sid: string, evs: seq<Event>)
    ensures Fold(H, sid, evs).frozen <==> exists i :: 0 <= i < |evs| && Ends(evs[i])
    ensures forall i :: 0 <= i < |evs| && Ends(evs[i]) ==> Fold(H, sid, evs) == Fold(H, sid, evs[..i]).(frozen := true)
  {
    if evs != [] {
      var n := |evs| - 1;
      EndFreezes(H, sid, evs[..n]);
      EndsIsTerminal(evs[n]);
      forall i | 0 <= i < |evs| && Ends(evs[i]) ensures Fold(H, sid, evs) == Fold(H, sid, evs[..i]).(frozen := true) {
        if i < n { assert evs[..n][i] == evs[i] && evs[..n][..i] == evs[..i]; }
      }
      FreezeFrame(H, Fold(H, sid, evs[..n]), evs[n]);
      if exists i :: 0 <= i < |evs| && Ends(evs[i]) {
        var i :| 0 <= i < |evs| && Ends(evs[i]);
        assert Fold(H, sid, evs) == Fold(H, sid, evs[..i]).(frozen := true);
      } else {
        assert forall i :: 0 <= i < n ==> evs[..n][i] == evs[i];
      }
    }
  }

  /** Only an end freezes. */
  lemma FreezeFrame(H: Sha256, p: Projection, ev: Event)
    ensures Apply(H, p, ev).frozen <==> p.frozen || IsTerminal(ev)
  {
    if !p.frozen && !IsTerminal(ev) && ev.payload.PlanUpdated? && ev.payload.steps.Some? {
      StepsFreezeNothing(H, p, ev.payload.steps.value, 0, ev);
    }
  }

  lemma {:induction false} StepsFreezeNothing(H: Sha256, p: Projection, steps: seq<PlanStep>, i: nat, ev: Event)
    requires i <= |steps|
    ensures UpsertSteps(H, p, steps, i, ev).frozen == p.frozen
    decreases |steps| - i
  {
    if i < |steps| {
      if steps[i].step.None? {
        StepsFreezeNothing(H, p, steps, i + 1, ev);
      } else {
        StepsFreezeNothing(H, UpsertItem(p, StepUpsert(H, steps[i], i), ev), steps, i + 1, ev);
      }
    }
  }

  // ---------------------------------------------------------------------------------------------
  // Tree changes.
  // ---------------------------------------------------------------------------------------------

  /** What is known of the working tree: a commit with a diff on it, a diff alone, or nothing. */
  datatype Tree = OnCommit(head: string, diff: string) | DiffOnly(diff: string) | NoTree

  function TreeOf(head: Option<string>, diff: Option<string>): Tree {
    var d := if diff.Some? then diff.value else "";
    if head.Some? && head.value != "" then OnCommit(head.value, d) else if d != "" then DiffOnly(d) else NoTree
  }

  predicate NoNul(s: string) {
    forall k :: 0 <= k < |s| ==> s[k] != 0 as char
  }

  lemma FirstNul(a: string, x: string, b: string, y: string)
    requires a + [0 as char] + x == b + [0 as char] + y && NoNul(a) && NoNul(b)
    ensures a == b && x == y
  {
    var s := a + [0 as char] + x;
    assert s[|a|] == 0 as char && s[|b|] == 0 as char;
    assert |a| == |b|;
    assert a == s[..|a|] && b == s[..|b|] && x == s[|a| + 1..] && y == s[|b| + 1..];
  }

  /** The text a fingerprint of a commit hashes. */
  function TreeText(t: Tree): string
    requires t.OnCommit?
  {
    t.head + [0 as char] + t.diff
  }

  /**
   Fingerprints tell trees apart: none exactly for no tree, and equal exactly for equal trees, short of a
   hash collision or a lone diff that spells out the other tree's digest.
   */
  lemma FingerprintIdentifies(
    H: Sha256, h1: Option<string>, d1: Option<string>, h2: Option<string>, d2: Option<string>)
    requires (h1.Some? ==> NoNul(h1.value)) && (h2.Some? ==> NoNul(h2.value))
    ensures var s, t := TreeOf(h1, d1), TreeOf(h2, d2);
      && (TreeFingerprint(H, h1, d1).None? <==> s.NoTree?)
      && (TreeFingerprint(H, h1, d1) == TreeFingerprint(H, h2, d2) <==>
          || s == t
          || (s.OnCommit? && t.OnCommit? && TreeText(s) != TreeText(t) && H(TreeText(s)) == H(TreeText(t)))
          || (s.OnCommit? && t.DiffOnly? && H(TreeText(s)) == t.diff)
          || (s.DiffOnly? && t.OnCommit? && s.diff == H(TreeText(t))))
  {
    var s, t := TreeOf(h1, d1), TreeOf(h2, d2);
    if s.OnCommit? && t.OnCommit? && TreeText(s) == TreeText(t) { FirstNul(s.head, s.diff, t.head, t.diff); }
  }

  /** A verified item says it changed after verification, and since when; any other item is as before. */
  predicate TurnedStale(was: WorkItem, now: WorkItem, ev: Event) {
    if DeriveBadge(was) == Some(VerifiedBadge) then
      && DeriveBadge(now) == Some(ChangedAfterVerification)
      && now == was.(verification_state := now.verification_state, stale_at := Some(ev.timestamp),
                     stale_event_id := Some(ev.event_id), updated_at := ev.timestamp)
    else now == was
  }

  /**
   A diff event sets the fingerprint of the tree it describes, if it describes one.  If that is new,
   exactly the verified items turn stale, keeping everything else, and every open check is dirty.
   */
  lemma DiffExact(H: Sha256, sid: string, evs: seq<Event>, ev: Event)
    requires ev.payload.DiffUpdated? && !IsTerminal(ev) && !Fold(H, sid, evs).frozen
    ensures var p, q := Fold(H, sid, evs), Fold(H, sid, evs + [ev]);
      var fp := TreeFingerprint(H, ev.payload.headSha, ev.payload.diffHash);
      && (fp.None? || fp == p.tree_fp ==> q == p)
      && (fp.Some? && fp != p.tree_fp ==>
            && q.tree_fp == fp && q.dropped_count == p.dropped_count && !q.frozen && q.session_id == p.session_id
            && |q.pending_checks| == |p.pending_checks| && |q.items| == |p.items|
            && (forall k :: 0 <= k < |p.pending_checks| ==> q.pending_checks[k] == PendingCheck(p.pending_checks[k].request_id, true))
            && (forall k :: 0 <= k < |p.items| ==> TurnedStale(p.items[k], q.items[k], ev)))
  {
    assert (evs + [ev])[..|evs|] == evs;
    FoldSound(H, sid, evs);
    assert forall k :: 0 <= k < |Fold(H, sid, evs).items| ==> ItemSound(Fold(H, sid, evs).items[k], Fold(H, sid, evs).tree_fp);
  }

  // ---------------------------------------------------------------------------------------------
  // Checks.
  // ---------------------------------------------------------------------------------------------

  /** The event counts: the session has not ended by it. */
  predicate Counts(evs: seq<Event>, j: nat) {
    j < |evs| && forall i :: 0 <= i <= j ==> !Ends(evs[i])
  }

  predicate Closes(ev: Event, r: string) {
    ev.payload.CommandCompleted? && ev.payload.checkKind.Some? && ev.payload.requestId == Some(r)
  }

  /** The check with this request id was last started at s, and has not completed since. */
  ghost predicate OpenSince(evs: seq<Event>, s: nat, r: string) {
    && Counts(evs, s) && OpensCheck(evs[s], r)
    && forall j: nat :: s < j && Counts(evs, j) ==> !Closes(evs[j], r) && !OpensCheck(evs[j], r)
  }

  lemma {:induction false} CountsSnoc(evs: seq<Event>, j: nat)
    requires evs != [] && j < |evs| - 1
    ensures Counts(evs[..|evs| - 1], j) <==> Counts(evs, j)
  {
    var front := evs[..|evs| - 1];
    assert forall i :: 0 <= i <= j ==> front[i] == evs[i];
  }

  lemma OpenSnoc(evs: seq<Event>, s: nat, r: string)
    requires evs != []
    ensures var n := |evs| - 1;
      OpenSince(evs, s, r) <==>
        if s == n then Counts(evs, n) && OpensCheck(evs[n], r)
        else OpenSince(evs[..n], s, r) && !(Counts(evs, n) && (Closes(evs[n], r) || OpensCheck(evs[n], r)))
  {
    var n := |evs| - 1;
    forall j: nat | j < n ensures Counts(evs[..n], j) <==> Counts(evs, j) { CountsSnoc(evs, j); }
    assert forall j: nat :: j < n ==> evs[..n][j] == evs[j];
    assert forall j: nat :: Counts(evs, j) ==> j <= n;
    assert forall j: nat :: Counts(evs[..n], j) ==> j < n;
    if OpenSince(evs[..n], s, r) && s < n && !(Counts(evs, n) && (Closes(evs[n], r) || OpensCheck(evs[n], r))) {
      forall j: nat | s < j && Counts(evs, j) ensures !Closes(evs[j], r) && !OpensCheck(evs[j], r) {
        if j < n { assert Counts(evs[..n], j); }
      }
    }
    if OpenSince(evs, s, r) && s < n {
      forall j: nat | s < j && Counts(evs[..n], j) ensures !Closes(evs[..n][j], r) && !OpensCheck(evs[..n][j], r) {
        assert Counts(evs, j);
      }
    }
  }

  ghost predicate IsOpen(evs: seq<Event>, r: string) {
    exists s: nat :: OpenSince(evs, s, r)
  }

  lemma IsOpenSnoc(evs: seq<Event>, r: string)
    requires evs != []
    ensures var n := |evs| - 1;
      IsOpen(evs, r) <==>
        if Counts(evs, n) && OpensCheck(evs[n], r) then true
        else IsOpen(evs[..n], r) && !(Counts(evs, n) && Closes(evs[n], r))
  {
    var n := |evs| - 1;
    if IsOpen(evs, r) {
      var s: nat :| OpenSince(evs, s, r);
      OpenSnoc(evs, s, r);
    }
    if Counts(evs, n) && OpensCheck(evs[n], r) {
      OpenSnoc(evs, n, r);
    } else if IsOpen(evs[..n], r) {
      var s: nat :| OpenSince(evs[..n], s, r);
      OpenSnoc(evs, s, r);
    }
  }

  predicate HasCheck(pending: seq<PendingCheck>, r: string) {
    exists pc :: pc in pending && pc.request_id == r
  }

  /** All open checks with this id have this mark. */
  predicate AllMarked(pending: seq<PendingCheck>, r: string, dirty: bool) {
    forall pc :: pc in pending && pc.request_id == r ==> pc.dirtied == dirty
  }

  ghost predicate ChecksSay(H: Sha256, sid: string, evs: seq<Event>, pending: seq<PendingCheck>, r: string) {
    && (HasCheck(pending, r) <==> IsOpen(evs, r))
    && forall s: nat :: OpenSince(evs, s, r) ==> AllMarked(pending, r, TreeMoved(H, sid, evs, s))
  }

  /** What an event that counts does to the open checks with one request id. */
  lemma PendingAfter(H: Sha256, p: Projection, ev: Event, r: string)
    requires !p.frozen && !IsTerminal(ev)
    ensures var q := Apply(H, p, ev);
      && (HasCheck(q.pending_checks, r) <==> OpensCheck(ev, r) || (HasCheck(p.pending_checks, r) && !Closes(ev, r)))
      && (OpensCheck(ev, r) ==> AllMarked(q.pending_checks, r, false) && q.tree_fp == p.tree_fp)
      && (!OpensCheck(ev, r) && q.tree_fp != p.tree_fp ==> AllMarked(q.pending_checks, r, true))
      && (!OpensCheck(ev, r) && q.tree_fp == p.tree_fp ==>
            forall d :: AllMarked(p.pending_checks, r, d) ==> AllMarked(q.pending_checks, r, d))
  {
    var q := Apply(H, p, ev);
    match ev.payload
    case PlanUpdated(steps) => if steps.Some? { StepsFrame(H, p, steps.value, 0, ev); }
    case CommandStarted(_, _) =>
      if OpensCheck(ev, r) { assert PendingCheck(r, false) in q.pending_checks; }
      assert forall pc: PendingCheck :: pc.request_id == r && pc in q.pending_checks ==> OpensCheck(ev, r) || pc in p.pending_checks;
      assert forall pc: PendingCheck :: pc.request_id == r && pc in p.pending_checks ==> OpensCheck(ev, r) || pc in q.pending_checks;
    case CommandCompleted(_, _, _, _) =>
      assert forall pc: PendingCheck :: pc.request_id == r ==> (pc in q.pending_checks <==> pc in p.pending_checks && !Closes(ev, r));
    case DiffUpdated(_, _) =>
      if q.tree_fp != p.tree_fp {
        forall pc ensures pc in q.pending_checks <==> pc.dirtied && HasCheck(p.pending_checks, pc.request_id) {
          AllDirty(p.pending_checks, pc);
        }
        assert HasCheck(p.pending_checks, r) ==> PendingCheck(r, true) in q.pending_checks;
      }
    case _ =>
  }

  lemma AllDirty(pending: seq<PendingCheck>, pc: PendingCheck)
    ensures pc in DirtyAll(pending) <==> pc.dirtied && HasCheck(pending, pc.request_id)
  {
    if pc in DirtyAll(pending) {
      var k :| 0 <= k < |pending| && DirtyAll(pending)[k] == pc;
      assert pending[k] in pending;
    }
    if pc.dirtied && HasCheck(pending, pc.request_id) {
      var was :| was in pending && was.request_id == pc.request_id;
      var k :| 0 <= k < |pending| && pending[k] == was;
      assert DirtyAll(pending)[k] == pc;
    }
  }

  /** An event that does not count changes no open check and moves no tree. */
  lemma IgnoredEvent(H: Sha256, sid: string, evs: seq<Event>)
    requires evs != [] && !Counts(evs, |evs| - 1)
    ensures var p, q := Fold(H, sid, evs[..|evs| - 1]), Fold(H, sid, evs);
      q.pending_checks == p.pending_checks && q.tree_fp == p.tree_fp
  {
    var n := |evs| - 1;
    EndFreezes(H, sid, evs[..n]);
    EndsIsTerminal(evs[n]);
    var i :| 0 <= i <= n && Ends(evs[i]);
    if i < n { assert evs[..n][i] == evs[i]; }
  }

  lemma CountedEvent(H: Sha256, sid: string, evs: seq<Event>)
    requires evs != [] && Counts(evs, |evs| - 1)
    ensures !Fold(H, sid, evs[..|evs| - 1]).frozen && !IsTerminal(evs[|evs| - 1])
  {
    var n := |evs| - 1;
    EndFreezes(H, sid, evs[..n]);
    EndsIsTerminal(evs[n]);
    assert forall i :: 0 <= i < n ==> evs[..n][i] == evs[i];
  }

  lemma MovedNow(H: Sha256, sid: string, evs: seq<Event>, s: nat)
    requires evs != [] && s < |evs|
    ensures var n := |evs| - 1;
      TreeMoved(H, sid, evs, s) <==>
        s < n && (TreeMoved(H, sid, evs[..n], s) || Fold(H, sid, evs).tree_fp != Fold(H, sid, evs[..n]).tree_fp)
  {
    var n := |evs| - 1;
    assert evs[..n + 1] == evs;
    if s < n { TreeMovedSnoc(H, sid, evs, s); }
  }

  /**
   Which checks are open, in every history: one with this request id exactly if it was started while the
   session ran and has not completed since; and it is dirty exactly if the tree moved since its last start.
   */
  lemma {:induction false} OpenChecksExact(H: Sha256, sid: string, evs: seq<Event>, r: string)
    ensures ChecksSay(H, sid, evs, Fold(H, sid, evs).pending_checks, r)
  {
    if evs != [] {
      var n := |evs| - 1;
      OpenChecksExact(H, sid, evs[..n], r);
      var p, q := Fold(H, sid, evs[..n]), Fold(H, sid, evs);
      IsOpenSnoc(evs, r);
      if Counts(evs, n) {
        CountedEvent(H, sid, evs);
        PendingAfter(H, p, evs[n], r);
      } else {
        IgnoredEvent(H, sid, evs);
      }
      forall s: nat | OpenSince(evs, s, r) ensures AllMarked(q.pending_checks, r, TreeMoved(H, sid, evs, s)) {
        OpenSnoc(evs, s, r);
        MovedNow(H, sid, evs, s);
      }
    } else {
      assert forall s: nat :: !OpenSince(evs, s, r);
    }
  }

  lemma {:induction false} DirtyAmong(pending: seq<PendingCheck>, r: string, dirty: bool)
    requires AllMarked(pending, r, dirty)
    ensures RunDirty(pending, Some(r)) <==> dirty && HasCheck(pending, r)
  {
    if pending != [] {
      assert forall pc :: pc in pending <==> pc == pending[0] || pc in pending[1..];
      DirtyAmong(pending[1..], r, dirty);
      if HasCheck(pending[1..], r) {
        var pc :| pc in pending[1..] && pc.request_id == r;
        assert pc in pending;
      }
    }
  }

  /** A check with this request id was open, and the tree moved since its last start. */
  ghost predicate RanDirty(H: Sha256, sid: string, evs: seq<Event>, r: string) {
    exists s: nat :: OpenSince(evs, s, r) && TreeMoved(H, sid, evs, s)
  }

  lemma RunDirtyExact(H: Sha256, sid: string, evs: seq<Event>, r: string)
    ensures RunDirty(Fold(H, sid, evs).pending_checks, Some(r)) <==> RanDirty(H, sid, evs, r)
  {
    var pending := Fold(H, sid, evs).pending_checks;
    OpenChecksExact(H, sid, evs, r);
    if IsOpen(evs, r) {
      var s: nat :| OpenSince(evs, s, r);
      DirtyAmong(pending, r, TreeMoved(H, sid, evs, s));
      forall t: nat | OpenSince(evs, t, r) ensures t == s { OneOpen(evs, s, t, r); }
    } else {
      assert AllMarked(pending, r, false);
      DirtyAmong(pending, r, false);
    }
  }

  lemma OneOpen(evs: seq<Event>, s: nat, t: nat, r: string)
    requires OpenSince(evs, s, r) && OpenSince(evs, t, r)
    ensures s == t
  {
  }

  /** The item carries this check's outcome and evidence; everything else about it is as before. */
  predicate Checked(was: WorkItem, now: WorkItem, ev: Event, tree: Option<string>, dirty: bool)
    requires ev.payload.CommandCompleted?
  {
    && SameIdentity(was, now) && now.status == was.status && now.subject == was.subject && now.ordinal == was.ordinal
    && SameClaim(was, now)
    && now.verification_state == (if ev.payload.exitCode == Some(0) then Passed else Failed)
    && now.verified_at == Some(ev.timestamp) && now.verification_event_id == Some(ev.event_id)
    && now.check_kind == ev.payload.checkKind && now.check_match == ev.payload.checkMatch
    && now.check_exit_code == ev.payload.exitCode && now.verified_tree_fp == tree && now.run_dirty == dirty
    && now.stale_at.None? && now.stale_event_id.None? && now.updated_at == ev.timestamp
  }

  /** The outcome says something: the command was a check, it ended, and a pass is on a known tree. */
  predicate Tells(ev: Event, tree: Option<string>)
    requires ev.payload.CommandCompleted?
  {
    ev.payload.checkKind.Some? && ev.payload.exitCode.Some? && (ev.payload.exitCode.value == 0 ==> tree.Some?)
  }

  /** The item carries the outcome if that tells something and the item was claimed by then, and is as before otherwise. */
  predicate CheckedIff(was: WorkItem, now: WorkItem, ev: Event, p: Projection, dirty: bool)
    requires ev.payload.CommandCompleted?
  {
    if Tells(ev, p.tree_fp) && was.status == Completed && was.claimed_at.Some? && was.claimed_at.value <= ev.timestamp
    then Checked(was, now, ev, p.tree_fp, dirty) else now == was
  }

  /**
   A completed command, in any history: if its outcome tells something, exactly the completed items
   claimed by then carry it, as dirty exactly if the tree moved since the check was last started.
   */
  lemma CheckBindsDirty(H: Sha256, sid: string, evs: seq<Event>, ev: Event)
    requires ev.payload.CommandCompleted? && !IsTerminal(ev) && !Fold(H, sid, evs).frozen
    ensures var p, q := Fold(H, sid, evs), Fold(H, sid, evs + [ev]);
      && q.(items := p.items, pending_checks := p.pending_checks) == p && |q.items| == |p.items|
      && forall k :: 0 <= k < |p.items| ==>
           CheckedIff(p.items[k], q.items[k], ev, p,
                      ev.payload.requestId.Some? && RanDirty(H, sid, evs, ev.payload.requestId.value))
  {
    var p := Fold(H, sid, evs);
    assert (evs + [ev])[..|evs|] == evs;
    if ev.payload.requestId.Some? { RunDirtyExact(H, sid, evs, ev.payload.requestId.value); }
    CompletionFrame(H, p, ev);
    forall k | 0 <= k < |p.items| ensures CheckedIff(p.items[k], Apply(H, p, ev).items[k], ev, p, RunDirty(p.pending_checks, ev.payload.requestId)) {
      ItemChecked(H, p, ev, k);
    }
  }

  lemma CompletionFrame(H: Sha256, p: Projection, ev: Event)
    requires ev.payload.CommandCompleted? && !IsTerminal(ev) && !p.frozen
    ensures var q := Apply(H, p, ev);
      q.(items := p.items, pending_checks := p.pending_checks) == p && |q.items| == |p.items|
  {
  }

  lemma ItemChecked(H: Sha256, p: Projection, ev: Event, k: nat)
    requires ev.payload.CommandCompleted? && !IsTerminal(ev) && !p.frozen && k < |p.items| == |Apply(H, p, ev).items|
    ensures CheckedIff(p.items[k], Apply(H, p, ev).items[k], ev, p, RunDirty(p.pending_checks, ev.payload.requestId))
  {
  }

  /** A started command opens a check at most, and changes nothing else. */
  lemma StartOnlyOpens(H: Sha256, sid: string, evs: seq<Event>, ev: Event)
    requires ev.payload.CommandStarted?
    ensures Fold(H, sid, evs + [ev]).(pending_checks := [], frozen := false) == Fold(H, sid, evs).(pending_checks := [], frozen := false)
  {
    assert (evs + [ev])[..|evs|] == evs;
  }
}
