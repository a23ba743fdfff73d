/**
 The work-items fold: how a session's event history becomes a list of work items with completion
 claims and verification evidence.

 Main results: `FoldGated` (folding only the reactive events equals folding all), `IdsOnlyGrow` (item
 ids are distinct and never disappear), `VerifiedHasEvidence` (a `verified` badge always rests on a
 recorded passing check that ran on the current tree, after the claim) and `DirtyExact` (an open check
 is marked dirty exactly when the tree changed since it started).
 */
module WorkItems {
  import opened Options
  import opened Hashing
  import opened Text
  import opened TextOrder

  const MAX_WORK_ITEMS: nat := 200
  const SUMMARY_SUBJECT_CAP: nat := 200
  const WORK_ITEM_ID_HASH_LEN: nat := 16

  datatype Status = Pending | InProgress | Completed | Cancelled | Removed | UnknownStatus
  datatype Verification = Unverified | Passed | Failed | Stale | Waived
  datatype Scheme = Task | Plan
  datatype Fidelity = Authoritative | Observed | Parsed | Inferred | UnknownFidelity
  datatype CheckKind = Test | Lint | Typecheck | Build | Format
  datatype CheckMatch = Program | Script

  /** One step of a plan snapshot: its text (absent when the entry is malformed) and status. */
  datatype PlanStep = PlanStep(step: Option<string>, status: Status)

  /** The event types the fold reacts to, with the payload fields it reads; every other type is `Other`. */
  datatype Payload =
    | WorkItemUpdated(providerTaskId: Option<string>, status: Status, subject: Option<string>,
                      via: Option<string>, fidelity: Option<Fidelity>)
    | PlanUpdated(steps: Option<seq<PlanStep>>)
    | CommandStarted(startKind: Option<CheckKind>, startRequest: Option<string>)
    | CommandCompleted(checkKind: Option<CheckKind>, requestId: Option<string>,
                       exitCode: Option<int>, checkMatch: Option<CheckMatch>)
    | DiffUpdated(headSha: Option<string>, diffHash: Option<string>)
    | SessionEnded
    | Other(eventType: string)

  datatype Event = Event(
    event_id: string, session_id: string, timestamp: int, state: Option<string>, payload: Payload)

  datatype WorkItem = WorkItem(
    session_id: string, work_item_id: string, id_scheme: Scheme, subject: Option<string>,
    status: Status, ordinal: Option<nat>, created_at: int, created_event_id: string,
    claimed_at: Option<int>, claim_event_id: Option<string>, claim_method: Option<string>,
    claim_fidelity: Option<Fidelity>, verification_state: Verification, verified_at: Option<int>,
    verification_event_id: Option<string>, check_kind: Option<CheckKind>,
    check_match: Option<CheckMatch>, check_exit_code: Option<int>, verified_tree_fp: Option<string>,
    run_dirty: bool, stale_at: Option<int>, stale_event_id: Option<string>, updated_at: int)

  datatype PendingCheck = PendingCheck(request_id: string, dirtied: bool)

  datatype Projection = Projection(
    session_id: string, items: seq<WorkItem>, dropped_count: nat, frozen: bool,
    tree_fp: Option<string>, pending_checks: seq<PendingCheck>)

  function Initial(sid: string): Projection {
    Projection(sid, [], 0, false, None, [])
  }

  predicate IsTerminalState(state: Option<string>) {
    state.Some? && state.value in ["completed", "failed", "interrupted", "suspended"]
  }

  /** Freezing events: the session has ended, or the event carries a terminal state. */
  predicate IsTerminal(ev: Event) {
    ev.payload.SessionEnded? || IsTerminalState(ev.state)
  }

  /** The gate: events that may change the fold. */
  predicate IsFoldEvent(ev: Event) {
    !ev.payload.Other? || IsTerminalState(ev.state)
  }

  // ---------------------------------------------------------------------------------------------
  // Identifiers, fingerprints and bounded text.
  // ---------------------------------------------------------------------------------------------

  function DeriveWorkItemId(H: Sha256, scheme: Scheme, text: string): string {
    if scheme == Plan then "plan:" + H(Trim(text))[..WORK_ITEM_ID_HASH_LEN]
    else "task:" + H(text)[..WORK_ITEM_ID_HASH_LEN]
  }

  function TreeFingerprint(H: Sha256, head: Option<string>, diff: Option<string>): Option<string> {
    if head.None? || head.value == "" then
      if diff.Some? && diff.value != "" then diff else None
    else
      Some(H(head.value + [0 as char] + (if diff.None? then "" else diff.value)))
  }

  function BoundSummary(s: Option<string>): Option<string> {
    if s.None? || |s.value| <= SUMMARY_SUBJECT_CAP then s
    else Some(s.value[..SUMMARY_SUBJECT_CAP] + [0x2026 as char])
  }

  function FidelityRank(f: Option<Fidelity>): int {
    match f
    case None => -1
    case Some(Authoritative) => 4
    case Some(Observed) => 3
    case Some(Parsed) => 2
    case Some(Inferred) => 1
    case Some(UnknownFidelity) => 0
  }

  // ---------------------------------------------------------------------------------------------
  // Items by id.
  // ---------------------------------------------------------------------------------------------

  function Ids(items: seq<WorkItem>): (ids: seq<string>)
    ensures |ids| == |items| && forall i :: 0 <= i < |items| ==> ids[i] == items[i].work_item_id
  {
    seq(|items|, i requires 0 <= i < |items| => items[i].work_item_id)
  }

  /** The position of the item with the given id, or `|items|`. */
  function Find(items: seq<WorkItem>, id: string): (k: nat)
    ensures k <= |items|
    ensures k < |items| ==> items[k].work_item_id == id
    ensures forall i :: 0 <= i < k ==> items[i].work_item_id != id
  {
    if items == [] || items[0].work_item_id == id then 0 else 1 + Find(items[1..], id)
  }

  /** `items.map(...)` applied to every item; used by the updates that touch several items. */
  function Replace(items: seq<WorkItem>, next: WorkItem): (r: seq<WorkItem>)
    ensures |r| == |items|
    ensures forall i :: 0 <= i < |items| ==>
      r[i] == if items[i].work_item_id == next.work_item_id then next else items[i]
  {
    seq(|items|, i requires 0 <= i < |items| =>
      if items[i].work_item_id == next.work_item_id then next else items[i])
  }

  // ---------------------------------------------------------------------------------------------
  // Upsert: claims and reopening.
  // ---------------------------------------------------------------------------------------------

  datatype Upsert = Upsert(
    id: string, scheme: Scheme, status: Status, subject: Option<string>, ordinal: Option<nat>,
    via: Option<string>, fidelity: Option<Fidelity>)

  function NewItem(u: Upsert, ev: Event): WorkItem {
    var claimed := u.status == Completed;
    WorkItem(ev.session_id, u.id, u.scheme, u.subject, u.status, u.ordinal, ev.timestamp,
             ev.event_id, if claimed then Some(ev.timestamp) else None,
             if claimed then Some(ev.event_id) else None, if claimed then u.via else None,
             if claimed then u.fidelity else None, Unverified, None, None, None, None, None, None,
             false, None, None, ev.timestamp)
  }

  function ClearClaim(it: WorkItem): WorkItem {
    it.(claimed_at := None, claim_event_id := None, claim_method := None, claim_fidelity := None,
        verification_state := Unverified, verified_at := None, verification_event_id := None,
        check_kind := None, check_match := None, check_exit_code := None, verified_tree_fp := None,
        run_dirty := false, stale_at := None, stale_event_id := None)
  }

  function UpdatedItem(existing: WorkItem, u: Upsert, ev: Event): (r: WorkItem)
    ensures r.work_item_id == existing.work_item_id
  {
    var next := existing.(status := u.status, updated_at := ev.timestamp,
                          subject := if u.subject.Some? then u.subject else existing.subject,
                          ordinal := if u.ordinal.Some? then u.ordinal else existing.ordinal);
    if u.status == Completed && existing.status != Completed then
      next.(claimed_at := if existing.claimed_at.Some? then existing.claimed_at else Some(ev.timestamp),
            claim_event_id := Some(ev.event_id), claim_method := u.via,
            claim_fidelity := u.fidelity, verification_state := Unverified)
    else if u.status == Completed && existing.status == Completed then
      if FidelityRank(u.fidelity) > FidelityRank(existing.claim_fidelity) then
        next.(claim_method := u.via, claim_fidelity := u.fidelity)
      else next
    else if existing.status == Completed then ClearClaim(next)
    else next
  }

  function UpsertItem(prev: Projection, u: Upsert, ev: Event): Projection {
    var k := Find(prev.items, u.id);
    if k == |prev.items| then
      if |prev.items| >= MAX_WORK_ITEMS then prev.(dropped_count := prev.dropped_count + 1)
      else prev.(items := prev.items + [NewItem(u, ev)])
    else
      prev.(items := Replace(prev.items, UpdatedItem(prev.items[k], u, ev)))
  }

  // ---------------------------------------------------------------------------------------------
  // The five reactive cases.
  // ---------------------------------------------------------------------------------------------

  function ApplyWorkItemUpdated(H: Sha256, prev: Projection, ev: Event): Projection
    requires ev.payload.WorkItemUpdated?
  {
    var p := ev.payload;
    if p.providerTaskId.None? then prev
    else UpsertItem(prev, Upsert(DeriveWorkItemId(H, Task, p.providerTaskId.value), Task, p.status,
                                 BoundSummary(p.subject), None, p.via, p.fidelity), ev)
  }

  function StepUpsert(H: Sha256, step: PlanStep, ordinal: nat): Upsert
    requires step.step.Some?
  {
    Upsert(DeriveWorkItemId(H, Plan, step.step.value), Plan, step.status, BoundSummary(step.step),
           Some(ordinal), None, None)
  }

  /** The snapshot's steps from position `i` on, upserted in order. */
  function UpsertSteps(H: Sha256, prev: Projection, steps: seq<PlanStep>, i: nat, ev: Event): Projection
    requires i <= |steps|
    decreases |steps| - i
  {
    if i == |steps| then prev
    else if steps[i].step.None? then UpsertSteps(H, prev, steps, i + 1, ev)
    else UpsertSteps(H, UpsertItem(prev, StepUpsert(H, steps[i], i), ev), steps, i + 1, ev)
  }

  function SeenIds(H: Sha256, steps: seq<PlanStep>): set<string> {
    set i | 0 <= i < |steps| && steps[i].step.Some? :: DeriveWorkItemId(H, Plan, steps[i].step.value)
  }

  function RemoveAbsent(items: seq<WorkItem>, seen: set<string>, ev: Event): (r: seq<WorkItem>)
    ensures |r| == |items|
    ensures forall i :: 0 <= i < |items| ==>
      r[i] == if items[i].id_scheme == Plan && items[i].status != Removed && items[i].work_item_id !in seen
              then items[i].(status := Removed, updated_at := ev.timestamp) else items[i]
  {
    seq(|items|, i requires 0 <= i < |items| =>
      if items[i].id_scheme == Plan && items[i].status != Removed && items[i].work_item_id !in seen
      then items[i].(status := Removed, updated_at := ev.timestamp) else items[i])
  }

  function ApplyPlanSnapshot(H: Sha256, prev: Projection, ev: Event): Projection
    requires ev.payload.PlanUpdated?
  {
    if ev.payload.steps.None? then prev
    else
      var proj := UpsertSteps(H, prev, ev.payload.steps.value, 0, ev);
      proj.(items := RemoveAbsent(proj.items, SeenIds(H, ev.payload.steps.value), ev))
  }

  function Without(pending: seq<PendingCheck>, r: string): (res: seq<PendingCheck>)
    ensures forall c :: c in res <==> c in pending && c.request_id != r
  {
    if pending == [] then []
    else if pending[0].request_id == r then Without(pending[1..], r)
    else [pending[0]] + Without(pending[1..], r)
  }

  function ApplyCommandStarted(prev: Projection, ev: Event): Projection
    requires ev.payload.CommandStarted?
  {
    if ev.payload.startKind.None? || ev.payload.startRequest.None? then prev
    else
      var r := ev.payload.startRequest.value;
      prev.(pending_checks := Without(prev.pending_checks, r) + [PendingCheck(r, false)])
  }

  function DirtyAll(pending: seq<PendingCheck>): (r: seq<PendingCheck>)
    ensures |r| == |pending|
    ensures forall i :: 0 <= i < |pending| ==> r[i] == PendingCheck(pending[i].request_id, true)
  {
    seq(|pending|, i requires 0 <= i < |pending| => PendingCheck(pending[i].request_id, true))
  }

  function StaleOne(it: WorkItem, fp: string, ev: Event): WorkItem {
    if it.status == Completed && it.verification_state == Passed && it.verified_tree_fp != Some(fp) then
      it.(verification_state := Stale, stale_at := Some(ev.timestamp),
          stale_event_id := Some(ev.event_id), updated_at := ev.timestamp)
    else it
  }

  function ApplyDiffUpdated(H: Sha256, prev: Projection, ev: Event): Projection
    requires ev.payload.DiffUpdated?
  {
    var fp := TreeFingerprint(H, ev.payload.headSha, ev.payload.diffHash);
    if fp.None? || fp == prev.tree_fp then prev
    else
      prev.(tree_fp := fp, pending_checks := DirtyAll(prev.pending_checks),
            items := seq(|prev.items|, i requires 0 <= i < |prev.items| => StaleOne(prev.items[i], fp.value, ev)))
  }

  /** Whether an open check with this request id saw the tree change. */
  predicate RunDirty(pending: seq<PendingCheck>, r: Option<string>) {
    r.Some? && pending != []
    && (if pending[0].request_id == r.value then pending[0].dirtied else RunDirty(pending[1..], r))
  }

  function BindCheck(it: WorkItem, prev: Projection, ev: Event): (r: WorkItem)
    requires ev.payload.CommandCompleted? && ev.payload.exitCode.Some?
  {
    if it.status != Completed || it.claimed_at.None? || it.claimed_at.value > ev.timestamp then it
    else
      it.(verification_state := if ev.payload.exitCode.value == 0 then Passed else Failed,
          verified_at := Some(ev.timestamp), verification_event_id := Some(ev.event_id),
          check_kind := ev.payload.checkKind, check_match := ev.payload.checkMatch,
          check_exit_code := ev.payload.exitCode, verified_tree_fp := prev.tree_fp,
          run_dirty := RunDirty(prev.pending_checks, ev.payload.requestId),
          stale_at := None, stale_event_id := None, updated_at := ev.timestamp)
  }

  function ApplyCommandCompleted(prev: Projection, ev: Event): Projection
    requires ev.payload.CommandCompleted?
  {
    var p := ev.payload;
    if p.checkKind.None? then prev
    else
      var closed := prev.(pending_checks :=
        if p.requestId.Some? then Without(prev.pending_checks, p.requestId.value) else prev.pending_checks);
      if p.exitCode.None? || (p.exitCode.value == 0 && prev.tree_fp.None?) then closed
      else
        closed.(items := seq(|prev.items|, i requires 0 <= i < |prev.items| => BindCheck(prev.items[i], prev, ev)))
  }

  function Apply(H: Sha256, prev: Projection, ev: Event): Projection {
    if prev.frozen then prev
    else if IsTerminal(ev) then prev.(frozen := true)
    else
      match ev.payload
      case WorkItemUpdated(_, _, _, _, _) => ApplyWorkItemUpdated(H, prev, ev)
      case PlanUpdated(_) => ApplyPlanSnapshot(H, prev, ev)
      case CommandStarted(_, _) => ApplyCommandStarted(prev, ev)
      case CommandCompleted(_, _, _, _) => ApplyCommandCompleted(prev, ev)
      case DiffUpdated(_, _) => ApplyDiffUpdated(H, prev, ev)
      case _ => prev
  }

  /** The fold of a whole history, oldest event first. */
  function Fold(H: Sha256, sid: string, evs: seq<Event>): Projection {
    if evs == [] then Initial(sid)
    else Apply(H, Fold(H, sid, evs[..|evs| - 1]), evs[|evs| - 1])
  }

  method ReduceWorkItems(H: Sha256, sid: string, evs: seq<Event>) returns (proj: Projection)
    ensures proj == Fold(H, sid, evs)
  {
    proj := Initial(sid);
    for i := 0 to |evs|
      invariant proj == Fold(H, sid, evs[..i])
    {
      assert evs[..i + 1][..i] == evs[..i];
      proj := Apply(H, proj, evs[i]);
    }
    assert evs[..|evs|] == evs;
  }

  // ---------------------------------------------------------------------------------------------
  // The gate.
  // ---------------------------------------------------------------------------------------------

  function Gated(evs: seq<Event>): (r: seq<Event>) {
    if evs == [] then []
    else
      var rest := Gated(evs[..|evs| - 1]);
      if IsFoldEvent(evs[|evs| - 1]) then rest + [evs[|evs| - 1]] else rest
  }

  /** Folding only the gated events equals folding all of them. */
  lemma {:induction false} FoldGated(H: Sha256, sid: string, evs: seq<Event>)
    ensures Fold(H, sid, Gated(evs)) == Fold(H, sid, evs)
  {
    if evs != [] {
      var front, last := evs[..|evs| - 1], evs[|evs| - 1];
      FoldGated(H, sid, front);
      if IsFoldEvent(last) {
        assert Gated(evs)[..|Gated(evs)| - 1] == Gated(front);
      }
    }
  }

  // ---------------------------------------------------------------------------------------------
  // Item ids are distinct and never disappear.
  // ---------------------------------------------------------------------------------------------

  predicate DistinctIds(items: seq<WorkItem>) {
    forall i, j :: 0 <= i < j < |items| ==> items[i].work_item_id != items[j].work_item_id
  }

  /** `q` has the items of `p`, in place, possibly updated, and perhaps more after them. */
  predicate Grows(p: Projection, q: Projection) {
    && Ids(p.items) <= Ids(q.items)
    && (DistinctIds(p.items) ==> DistinctIds(q.items))
    && (|p.items| <= MAX_WORK_ITEMS ==> |q.items| <= MAX_WORK_ITEMS)
  }

  lemma SameIdsGrow(p: Projection, q: Projection)
    requires |p.items| == |q.items|
    requires forall i :: 0 <= i < |p.items| ==> p.items[i].work_item_id == q.items[i].work_item_id
    ensures Grows(p, q)
  {
    assert Ids(p.items) == Ids(q.items);
  }

  lemma UpsertGrows(prev: Projection, u: Upsert, ev: Event)
    ensures Grows(prev, UpsertItem(prev, u, ev))
  {
    var q := UpsertItem(prev, u, ev);
    if |q.items| == |prev.items| {
      SameIdsGrow(prev, q);
    } else {
      assert Ids(q.items)[..|prev.items|] == Ids(prev.items);
    }
  }

  lemma {:induction false} StepsGrow(H: Sha256, prev: Projection, steps: seq<PlanStep>, i: nat, ev: Event)
    requires i <= |steps|
    ensures Grows(prev, UpsertSteps(H, prev, steps, i, ev))
    decreases |steps| - i
  {
    if i < |steps| {
      if steps[i].step.None? {
        StepsGrow(H, prev, steps, i + 1, ev);
      } else {
        UpsertGrows(prev, StepUpsert(H, steps[i], i), ev);
        StepsGrow(H, UpsertItem(prev, StepUpsert(H, steps[i], i), ev), steps, i + 1, ev);
      }
    }
  }

  lemma ApplyGrows(H: Sha256, prev: Projection, ev: Event)
    ensures Grows(prev, Apply(H, prev, ev))
  {
    var q := Apply(H, prev, ev);
    if |q.items| == |prev.items| && Ids(q.items) == Ids(prev.items) {
      SameIdsGrow(prev, q);
    } else {
      match ev.payload
      case WorkItemUpdated(t, st, su, v, f) =>
        UpsertGrows(prev, Upsert(DeriveWorkItemId(H, Task, t.value), Task, st, BoundSummary(su), None, v, f), ev);
      case PlanUpdated(steps) =>
        StepsGrow(H, prev, steps.value, 0, ev);
        SameIdsGrow(UpsertSteps(H, prev, steps.value, 0, ev), q);
      case CommandCompleted(_, _, _, _) => SameIdsGrow(prev, q);
      case DiffUpdated(_, _) => SameIdsGrow(prev, q);
      case _ =>
    }
  }

  /** Ids stay distinct and bounded in number, and the ids at any earlier moment are still there, in place. */
  lemma {:induction false} IdsOnlyGrow(H: Sha256, sid: string, evs: seq<Event>, i: nat)
    requires i <= |evs|
    ensures DistinctIds(Fold(H, sid, evs).items)
    ensures |Fold(H, sid, evs).items| <= MAX_WORK_ITEMS
    ensures Ids(Fold(H, sid, evs[..i]).items) <= Ids(Fold(H, sid, evs).items)
  {
    if i == |evs| {
      assert evs[..i] == evs;
      if evs != [] {
        IdsOnlyGrow(H, sid, evs[..|evs| - 1], |evs| - 1);
        ApplyGrows(H, Fold(H, sid, evs[..|evs| - 1]), evs[|evs| - 1]);
      }
    } else {
      var front := evs[..|evs| - 1];
      IdsOnlyGrow(H, sid, front, i);
      assert front[..i] == evs[..i];
      ApplyGrows(H, Fold(H, sid, front), evs[|evs| - 1]);
    }
  }

  // ---------------------------------------------------------------------------------------------
  // Evidence behind a `verified` badge.
  // ---------------------------------------------------------------------------------------------

  datatype Badge = SelfClaimed | VerifiedBadge | VerificationFailed | ChangedAfterVerification

  function DeriveBadge(it: WorkItem): Option<Badge> {
    if it.status != Completed then None
    else
      match it.verification_state
      case Unverified => Some(SelfClaimed)
      case Passed => Some(VerifiedBadge)
      case Failed => Some(VerificationFailed)
      case Stale => Some(ChangedAfterVerification)
      case Waived => None
  }

  predicate IsVerified(it: WorkItem) {
    DeriveBadge(it) == Some(VerifiedBadge)
  }

  predicate ItemSound(it: WorkItem, fp: Option<string>) {
    && (it.status == Completed ==> it.claimed_at.Some?)
    && (IsVerified(it) ==> fp.Some? && it.verified_tree_fp == fp && it.verified_at.Some?
                           && it.claimed_at.value <= it.verified_at.value)
  }

  predicate Sound(p: Projection) {
    forall k :: 0 <= k < |p.items| ==> ItemSound(p.items[k], p.tree_fp)
  }

  predicate SameEvidence(a: WorkItem, b: WorkItem) {
    && a.verification_event_id == b.verification_event_id && a.verified_at == b.verified_at
    && a.verified_tree_fp == b.verified_tree_fp && a.claimed_at == b.claimed_at
    && a.run_dirty == b.run_dirty
  }

  /** From `p` to `q`, every verified item was verified before, on the same evidence and the same tree. */
  predicate NothingNewlyVerified(p: Projection, q: Projection) {
    && (forall k :: 0 <= k < |q.items| && IsVerified(q.items[k]) ==>
          k < |p.items| && IsVerified(p.items[k]) && SameEvidence(p.items[k], q.items[k])
          && p.tree_fp == q.tree_fp)
    && (Sound(p) ==> Sound(q))
  }

  lemma UpsertVerifiesNothing(p: Projection, u: Upsert, ev: Event)
    requires DistinctIds(p.items)
    ensures NothingNewlyVerified(p, UpsertItem(p, u, ev))
    ensures UpsertItem(p, u, ev).tree_fp == p.tree_fp
  {
    var q := UpsertItem(p, u, ev);
    var k := Find(p.items, u.id);
    forall i | 0 <= i < |q.items|
      ensures IsVerified(q.items[i]) ==>
        i < |p.items| && IsVerified(p.items[i]) && SameEvidence(p.items[i], q.items[i])
      ensures Sound(p) ==> ItemSound(q.items[i], q.tree_fp)
    {
      if i < |p.items| {
        assert Sound(p) ==> ItemSound(p.items[i], p.tree_fp);
        assert i == k || q.items[i] == p.items[i];
      }
    }
  }

  lemma NothingTransitive(p: Projection, q: Projection, r: Projection)
    requires NothingNewlyVerified(p, q) && NothingNewlyVerified(q, r)
    ensures NothingNewlyVerified(p, r)
  {
  }

  lemma {:induction false} StepsVerifyNothing(H: Sha256, p: Projection, steps: seq<PlanStep>, i: nat, ev: Event)
    requires i <= |steps| && DistinctIds(p.items)
    ensures NothingNewlyVerified(p, UpsertSteps(H, p, steps, i, ev))
    ensures UpsertSteps(H, p, steps, i, ev).tree_fp == p.tree_fp
    decreases |steps| - i
  {
    if i < |steps| {
      if steps[i].step.None? {
        StepsVerifyNothing(H, p, steps, i + 1, ev);
      } else {
        var u := StepUpsert(H, steps[i], i);
        var q := UpsertItem(p, u, ev);
        UpsertVerifiesNothing(p, u, ev);
        UpsertGrows(p, u, ev);
        StepsVerifyNothing(H, q, steps, i + 1, ev);
        NothingTransitive(p, q, UpsertSteps(H, q, steps, i + 1, ev));
      }
    }
  }

  lemma SnapshotVerifiesNothing(H: Sha256, p: Projection, ev: Event)
    requires ev.payload.PlanUpdated? && DistinctIds(p.items)
    ensures NothingNewlyVerified(p, ApplyPlanSnapshot(H, p, ev))
    ensures ApplyPlanSnapshot(H, p, ev).tree_fp == p.tree_fp
  {
    if ev.payload.steps.Some? {
      var q := UpsertSteps(H, p, ev.payload.steps.value, 0, ev);
      var r := ApplyPlanSnapshot(H, p, ev);
      StepsVerifyNothing(H, p, ev.payload.steps.value, 0, ev);
      forall k | 0 <= k < |r.items| ensures Sound(q) ==> ItemSound(r.items[k], r.tree_fp) {
        assert Sound(q) ==> ItemSound(q.items[k], q.tree_fp);
      }
      NothingTransitive(p, q, r);
    }
  }

  lemma DiffVerifiesNothing(H: Sha256, p: Projection, ev: Event)
    requires ev.payload.DiffUpdated? && Sound(p)
    ensures NothingNewlyVerified(p, ApplyDiffUpdated(H, p, ev))
  {
    var q := ApplyDiffUpdated(H, p, ev);
    forall k | 0 <= k < |q.items|
      ensures IsVerified(q.items[k]) ==> q.tree_fp == p.tree_fp
      ensures ItemSound(q.items[k], q.tree_fp)
    {
      assert ItemSound(p.items[k], p.tree_fp);
    }
  }

  /** A check that passed: the only kind of event that can verify an item. */
  predicate IsPassingCheck(ev: Event) {
    ev.payload.CommandCompleted? && ev.payload.checkKind.Some? && ev.payload.exitCode == Some(0)
  }

  predicate VerifiedBy(it: WorkItem, ev: Event) {
    && IsPassingCheck(ev)
    && it.verification_event_id == Some(ev.event_id) && it.verified_at == Some(ev.timestamp)
    && it.claimed_at.Some? && it.claimed_at.value <= ev.timestamp
  }

  /** One step: what is verified afterwards was verified just now by this event, or already was. */
  lemma VerifiedStep(H: Sha256, p: Projection, ev: Event, k: nat)
    requires Sound(p) && DistinctIds(p.items)
    requires k < |Apply(H, p, ev).items| && IsVerified(Apply(H, p, ev).items[k])
    ensures Apply(H, p, ev).tree_fp == p.tree_fp
    ensures VerifiedBy(Apply(H, p, ev).items[k], ev)
         || (k < |p.items| && IsVerified(p.items[k]) && SameEvidence(p.items[k], Apply(H, p, ev).items[k]))
  {
    StepSound(H, p, ev);
  }

  lemma StepSound(H: Sha256, p: Projection, ev: Event)
    requires Sound(p) && DistinctIds(p.items)
    ensures Sound(Apply(H, p, ev))
    ensures NothingNewlyVerified(p, Apply(H, p, ev))
         || (CheckStep(p, ev) && Apply(H, p, ev) == ApplyCommandCompleted(p, ev))
  {
    if !p.frozen && !IsTerminal(ev) {
      match ev.payload
      case WorkItemUpdated(t, st, su, v, f) =>
        if t.Some? {
          UpsertVerifiesNothing(p, Upsert(DeriveWorkItemId(H, Task, t.value), Task, st, BoundSummary(su), None, v, f), ev);
        }
      case PlanUpdated(_) => SnapshotVerifiesNothing(H, p, ev);
      case CommandStarted(_, _) => assert Apply(H, p, ev).items == p.items;
      case CommandCompleted(_, _, _, _) => CheckStepHolds(p, ev);
      case DiffUpdated(_, _) => DiffVerifiesNothing(H, p, ev);
      case _ =>
    }
  }

  /** A completed check leaves the tree as it is and verifies only with a passing exit on a known tree. */
  ghost predicate CheckStep(p: Projection, ev: Event) {
    && ev.payload.CommandCompleted?
    && var q := ApplyCommandCompleted(p, ev);
       q.tree_fp == p.tree_fp && |q.items| == |p.items|
       && forall k :: 0 <= k < |q.items| && IsVerified(q.items[k]) ==>
            VerifiedBy(q.items[k], ev) || (IsVerified(p.items[k]) && SameEvidence(p.items[k], q.items[k]))
  }

  lemma CheckStepHolds(p: Projection, ev: Event)
    requires Sound(p) && ev.payload.CommandCompleted?
    ensures CheckStep(p, ev) && Sound(ApplyCommandCompleted(p, ev))
  {
    var q := ApplyCommandCompleted(p, ev);
    forall k | 0 <= k < |q.items|
      ensures ItemSound(q.items[k], q.tree_fp)
      ensures IsVerified(q.items[k]) ==>
        VerifiedBy(q.items[k], ev) || (IsVerified(p.items[k]) && SameEvidence(p.items[k], q.items[k]))
    {
      assert ItemSound(p.items[k], p.tree_fp);
    }
  }

  lemma {:induction false} FoldSound(H: Sha256, sid: string, evs: seq<Event>)
    ensures Sound(Fold(H, sid, evs)) && DistinctIds(Fold(H, sid, evs).items)
  {
    IdsOnlyGrow(H, sid, evs, |evs|);
    if evs != [] {
      FoldSound(H, sid, evs[..|evs| - 1]);
      StepSound(H, Fold(H, sid, evs[..|evs| - 1]), evs[|evs| - 1]);
    }
  }

  function TreeAt(H: Sha256, sid: string, evs: seq<Event>, j: nat): Option<string>
    requires j <= |evs|
  {
    Fold(H, sid, evs[..j]).tree_fp
  }

  lemma TreeAtPrefix(H: Sha256, sid: string, evs: seq<Event>, n: nat, j: nat)
    requires j <= n <= |evs|
    ensures TreeAt(H, sid, evs[..n], j) == TreeAt(H, sid, evs, j)
  {
    assert evs[..n][..j] == evs[..j];
  }

  /** The evidence for a verified item: check `c` passed, after the claim, and the tree has not changed since. */
  ghost predicate Evidence(H: Sha256, sid: string, evs: seq<Event>, it: WorkItem, c: nat) {
    && c < |evs| && VerifiedBy(it, evs[c])
    && it.verified_tree_fp.Some?
    && forall j :: c <= j <= |evs| ==> TreeAt(H, sid, evs, j) == it.verified_tree_fp
  }

  lemma EvidenceExtends(H: Sha256, sid: string, evs: seq<Event>, was: WorkItem, it: WorkItem, c: nat)
    requires evs != [] && Evidence(H, sid, evs[..|evs| - 1], was, c) && SameEvidence(was, it)
    requires TreeAt(H, sid, evs, |evs|) == TreeAt(H, sid, evs, |evs| - 1)
    ensures Evidence(H, sid, evs, it, c)
  {
    var n := |evs| - 1;
    forall j | c <= j <= |evs| ensures TreeAt(H, sid, evs, j) == it.verified_tree_fp {
      var i := if j <= n then j else n;
      TreeAtPrefix(H, sid, evs, n, i);
      assert TreeAt(H, sid, evs[..n], i) == was.verified_tree_fp;
    }
  }

  /**
   No badge without evidence: in every history, an item shown as `verified` names a recorded check
   that passed, that completed no earlier than the item was claimed, and since which the tree
   fingerprint has not moved.
   */
  lemma {:induction false} VerifiedHasEvidence(H: Sha256, sid: string, evs: seq<Event>, k: nat)
    requires k < |Fold(H, sid, evs).items|
    requires DeriveBadge(Fold(H, sid, evs).items[k]) == Some(VerifiedBadge)
    ensures exists c :: Evidence(H, sid, evs, Fold(H, sid, evs).items[k], c)
  {
    var n := |evs| - 1;
    assert evs[..|evs|] == evs;
    var p, it := Fold(H, sid, evs[..n]), Fold(H, sid, evs).items[k];
    FoldSound(H, sid, evs);
    FoldSound(H, sid, evs[..n]);
    VerifiedStep(H, p, evs[n], k);
    assert ItemSound(it, Fold(H, sid, evs).tree_fp);
    if VerifiedBy(it, evs[n]) {
      assert forall j :: n <= j <= |evs| ==> TreeAt(H, sid, evs, j) == it.verified_tree_fp;
      assert Evidence(H, sid, evs, it, n);
    } else {
      VerifiedHasEvidence(H, sid, evs[..n], k);
      var c :| Evidence(H, sid, evs[..n], p.items[k], c);
      EvidenceExtends(H, sid, evs, p.items[k], it, c);
    }
  }

  /** A completed check with a usable outcome verifies or fails exactly the items claimed by then. */
  lemma CheckExact(H: Sha256, p: Projection, ev: Event, k: nat)
    requires !p.frozen && !IsTerminal(ev) && k < |p.items|
    requires ev.payload.CommandCompleted? && ev.payload.checkKind.Some? && ev.payload.exitCode.Some?
    requires ev.payload.exitCode.value != 0 || p.tree_fp.Some?
    ensures var it, next := p.items[k], Apply(H, p, ev).items[k];
      if it.status == Completed && it.claimed_at.Some? && it.claimed_at.value <= ev.timestamp then
        && DeriveBadge(next) == Some(if ev.payload.exitCode.value == 0 then VerifiedBadge else VerificationFailed)
        && next.verification_event_id == Some(ev.event_id) && next.verified_tree_fp == p.tree_fp
        && next.run_dirty == RunDirty(p.pending_checks, ev.payload.requestId)
      else next == it
  {
  }

  /** A tree change turns every verified badge into `changed after verification`, and no other badge. */
  lemma TreeChangeExact(H: Sha256, sid: string, evs: seq<Event>, ev: Event, k: nat)
    requires ev.payload.DiffUpdated? && !IsTerminal(ev) && k < |Fold(H, sid, evs).items|
    requires !Fold(H, sid, evs).frozen
    requires Apply(H, Fold(H, sid, evs), ev).tree_fp != Fold(H, sid, evs).tree_fp
    ensures var it, next := Fold(H, sid, evs).items[k], Apply(H, Fold(H, sid, evs), ev).items[k];
      if IsVerified(it) then
        DeriveBadge(next) == Some(ChangedAfterVerification) && next.stale_event_id == Some(ev.event_id)
      else next == it
  {
    FoldSound(H, sid, evs);
    assert ItemSound(Fold(H, sid, evs).items[k], Fold(H, sid, evs).tree_fp);
  }

  // ---------------------------------------------------------------------------------------------
  // Dirty runs.
  // ---------------------------------------------------------------------------------------------

  predicate OpensCheck(ev: Event, r: string) {
    ev.payload.CommandStarted? && ev.payload.startKind.Some? && ev.payload.startRequest == Some(r)
  }

  ghost predicate TreeMoved(H: Sha256, sid: string, evs: seq<Event>, s: nat) {
    exists j :: s < j < |evs| && MovedAt(H, sid, evs, j)
  }

  /** The event at position j moved the tree. */
  predicate MovedAt(H: Sha256, sid: string, evs: seq<Event>, j: nat)
    requires j < |evs|
  {
    TreeAt(H, sid, evs, j) != TreeAt(H, sid, evs, j + 1)
  }

  lemma MovedAtPrefix(H: Sha256, sid: string, evs: seq<Event>, n: nat, j: nat)
    requires j < n <= |evs|
    ensures MovedAt(H, sid, evs[..n], j) <==> MovedAt(H, sid, evs, j)
  {
    TreeAtPrefix(H, sid, evs, n, j);
    TreeAtPrefix(H, sid, evs, n, j + 1);
  }

  lemma TreeMovedSnoc(H: Sha256, sid: string, evs: seq<Event>, s: nat)
    requires evs != [] && s < |evs| - 1
    ensures TreeMoved(H, sid, evs, s) <==> TreeMoved(H, sid, evs[..|evs| - 1], s) || MovedAt(H, sid, evs, |evs| - 1)
  {
    var n := |evs| - 1;
    forall j | s < j < n ensures MovedAt(H, sid, evs[..n], j) <==> MovedAt(H, sid, evs, j) {
      MovedAtPrefix(H, sid, evs, n, j);
    }
  }

  ghost predicate OpenedAt(H: Sha256, sid: string, evs: seq<Event>, pc: PendingCheck, s: nat) {
    && s < |evs| && OpensCheck(evs[s], pc.request_id)
    && (pc.dirtied <==> TreeMoved(H, sid, evs, s))
  }

  lemma OpenedExtends(H: Sha256, sid: string, evs: seq<Event>, was: PendingCheck, pc: PendingCheck, s: nat)
    requires evs != [] && OpenedAt(H, sid, evs[..|evs| - 1], was, s) && was.request_id == pc.request_id
    requires pc.dirtied <==> was.dirtied || MovedAt(H, sid, evs, |evs| - 1)
    ensures OpenedAt(H, sid, evs, pc, s)
  {
    TreeMovedSnoc(H, sid, evs, s);
  }

  lemma PendingStep(H: Sha256, p: Projection, ev: Event, pc: PendingCheck)
    requires pc in Apply(H, p, ev).pending_checks
    ensures (OpensCheck(ev, pc.request_id) && !pc.dirtied && Apply(H, p, ev).tree_fp == p.tree_fp)
         || (exists was :: was in p.pending_checks && was.request_id == pc.request_id
               && (pc.dirtied <==> was.dirtied || p.tree_fp != Apply(H, p, ev).tree_fp))
  {
    var q := Apply(H, p, ev);
    if pc in p.pending_checks && p.tree_fp == q.tree_fp {
    } else if ev.payload.DiffUpdated? && p.tree_fp != q.tree_fp {
      var i :| 0 <= i < |q.pending_checks| && q.pending_checks[i] == pc;
      assert p.pending_checks[i] in p.pending_checks && pc.dirtied;
    } else if ev.payload.PlanUpdated? && ev.payload.steps.Some? {
      StepsFrame(H, p, ev.payload.steps.value, 0, ev);
    }
  }

  lemma {:induction false} StepsFrame(H: Sha256, p: Projection, steps: seq<PlanStep>, i: nat, ev: Event)
    requires i <= |steps|
    ensures UpsertSteps(H, p, steps, i, ev).tree_fp == p.tree_fp
    ensures UpsertSteps(H, p, steps, i, ev).pending_checks == p.pending_checks
    decreases |steps| - i
  {
    if i < |steps| {
      if steps[i].step.None? {
        StepsFrame(H, p, steps, i + 1, ev);
      } else {
        StepsFrame(H, UpsertItem(p, StepUpsert(H, steps[i], i), ev), steps, i + 1, ev);
      }
    }
  }

  /** Every open check was started by a recorded event, and is dirty exactly when the tree moved since. */
  lemma {:induction false} DirtyExact(H: Sha256, sid: string, evs: seq<Event>, pc: PendingCheck)
    requires pc in Fold(H, sid, evs).pending_checks
    ensures exists s :: OpenedAt(H, sid, evs, pc, s)
  {
    var n := |evs| - 1;
    assert evs[..|evs|] == evs;
    var p := Fold(H, sid, evs[..n]);
    PendingStep(H, p, evs[n], pc);
    if OpensCheck(evs[n], pc.request_id) && !pc.dirtied && Fold(H, sid, evs).tree_fp == p.tree_fp {
      assert OpenedAt(H, sid, evs, pc, n);
    } else {
      var was :| was in p.pending_checks && was.request_id == pc.request_id
        && (pc.dirtied <==> was.dirtied || p.tree_fp != Fold(H, sid, evs).tree_fp);
      DirtyExact(H, sid, evs[..n], was);
      var s :| OpenedAt(H, sid, evs[..n], was, s);
      OpenedExtends(H, sid, evs, was, pc, s);
    }
  }
}
