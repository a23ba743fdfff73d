/**
 What the approval bridge does for each call, said of the log: the other half of the provenance results.

 `CallOutcomeExact`, `ScopeOutcomeExact` and `LookupOutcomeExact` say exactly when a call is deferred,
 allowed unattended, suspended or shown; `PersistTakesEffect` says what a persistent answer does.
 */
module BridgeOutcomes {
  import opened Options
  import opened Policies
  import opened Gate
  import opened ApprovalBridge
  import opened BridgeProvenance
  import Store = AllowlistStore
  import PolicyStore

  // ---------------------------------------------------------------------------------------------
  // The session cache holds exactly what the log grants.
  // ---------------------------------------------------------------------------------------------

  /** Every signature the operator allowed for the session since the last drain is in the cache. */
  ghost predicate CacheComplete(env: Env, s: State) {
    forall sig :: Cached(env, s.log, sig) ==> sig in s.cache
  }

  lemma CachedBefore(env: Env, log: seq<Event>, e: Event, sig: string)
    requires Cached(env, log + [e], sig) && !e.Decided?
    ensures Cached(env, log, sig) && !e.Drained?
  {
    var log' := log + [e];
    var j: nat :| SessionGrant(env, log', j, sig) && NoDrain(log', j, |log'|);
    assert log'[|log|] == e && j < |log|;
    GrantStays(env, log, e, j, sig);
    assert forall k :: j <= k < |log| ==> log[k] == log'[k];
    assert NoDrain(log, j, |log|);
  }

  lemma LogComplete(env: Env, s: State, e: Event)
    requires CacheComplete(env, s) && !e.Decided?
    ensures CacheComplete(env, Log(s, e))
  {
    forall sig | Cached(env, s.log + [e], sig) ensures sig in s.cache { CachedBefore(env, s.log, e, sig); }
  }

  lemma DecideComplete(env: Env, s: State, id: string, d: Decision, persist: bool)
    requires CacheComplete(env, s) && id in s.pending && Backed(env, s.log, id, s.pending[id])
    ensures CacheComplete(env, Decide(s, id, d, persist))
  {
    var p := s.pending[id];
    var e := Decided(p.call, id, d, persist);
    var log' := s.log + [e];
    forall sig | Cached(env, log', sig) ensures sig in Decide(s, id, d, persist).cache {
      var j: nat :| SessionGrant(env, log', j, sig) && NoDrain(log', j, |log'|);
      if j < |s.log| {
        GrantStays(env, s.log, e, j, sig);
        assert forall k :: j <= k < |s.log| ==> s.log[k] == log'[k];
        assert NoDrain(s.log, j, |s.log|);
        assert Cached(env, s.log, sig);
      } else {
        assert log'[j] == e;
      }
    }
  }

  lemma DrainComplete(env: Env, s: State)
    ensures CacheComplete(env, DrainStep(s))
  {
    var e := Drained(PendingCalls(s), Refused(Shutdown));
    forall sig ensures !Cached(env, s.log + [e], sig) {
      if Cached(env, s.log + [e], sig) { CachedBefore(env, s.log, e, sig); }
    }
  }

  lemma SameCache(env: Env, s: State, t: State)
    requires CacheComplete(env, s) && t.cache == s.cache && t.log == s.log
    ensures CacheComplete(env, t)
  {
  }

  lemma AskComplete(env: Env, s: State, call: nat, i: HookInput, gate: GateDecision, repo: Option<Repo>, id: string)
    requires CacheComplete(env, s) && gate.Gated?
    ensures CacheComplete(env, Ask(env, s, call, i, gate, repo, id))
  {
    var e := Card(call, id, gate.trigger, gate.kinds, repo.Some?);
    LogComplete(env, s, e);
    SameCache(env, Log(s, e), Ask(env, s, call, i, gate, repo, id));
  }

  lemma AfterPolicyComplete(env: Env, s: State, call: nat, i: HookInput, scope: Option<string>, id: string)
    requires CacheComplete(env, s)
    ensures CacheComplete(env, AfterPolicy(env, s, call, i, scope, id))
  {
    var gate := BypassGate(env.c, i, EffectiveLivePolicy(s.fallback, s.repos, env.envEnabled, scope));
    if gate.Ungated? { LogComplete(env, s, Settled(call, Defer)); } else { AskComplete(env, s, call, i, gate, None, id); }
  }

  lemma AfterGateComplete(env: Env, s: State, call: nat, i: HookInput, id: string)
    requires CacheComplete(env, s)
    ensures CacheComplete(env, AfterGate(env, s, call, i, id))
  {
    var gate := NormalGate(env.c, i);
    LogComplete(env, s, Settled(call, Defer));
    LogComplete(env, s, Settled(call, AutoAllow));
    if gate.Gated? { AskComplete(env, s, call, i, gate, None, id); }
  }

  lemma AfterPersistComplete(env: Env, s: State, call: nat, i: HookInput, found: Option<Repo>, now: int, id: string)
    requires CacheComplete(env, s) && NormalGate(env.c, i).Gated?
    ensures CacheComplete(env, AfterPersist(env, s, call, i, found, now, id))
  {
    if found.None? {
      AskComplete(env, s, call, i, NormalGate(env.c, i), None, id);
    } else {
      var s' := Log(s, ScopeFound(call, found.value.scope, now));
      LogComplete(env, s, ScopeFound(call, found.value.scope, now));
      LogComplete(env, s', Settled(call, GrantAllow));
      AskComplete(env, s', call, i, NormalGate(env.c, i), found, id);
    }
  }

  lemma ResolveComplete(env: Env, s: State, id: string, d: Decision, persist: bool, now: int, saved: bool)
    requires CacheComplete(env, s) && id in s.pending && Backed(env, s.log, id, s.pending[id])
    ensures CacheComplete(env, ResolveStep(env, s, id, d, persist, now, saved))
  {
    var p, s1 := s.pending[id], Decide(s, id, d, persist);
    DecideComplete(env, s, id, d, persist);
    if Persists(env, p, d, persist) && saved {
      var w := Wrote(Grant(env, p, now), Some(|s.log|));
      LogComplete(env, s1, w);
      var s2 := Write(s1, Grant(env, p, now), Some(|s.log|));
      SameCache(env, Log(s1, w), s2);
      LogComplete(env, s2, Settled(p.call, Answer(d)));
    } else {
      LogComplete(env, s1, Settled(p.call, Answer(d)));
    }
  }

  lemma StepComplete(env: Env, disk0: seq<Store.Entry>, s: State, t: Step)
    requires CacheComplete(env, s) && Inv(env, disk0, s) && Enabled(env, s, t)
    ensures CacheComplete(env, Next(env, s, t))
  {
    match t
    case Begin(i, id) =>
      LogComplete(env, s, Called(i));
      var s' := Log(s, Called(i));
      AfterGateComplete(env, s', |s.log|, i, id);
      AfterPolicyComplete(env, s', |s.log|, i, None, id);
    case PolicyScope(call, scope, id) =>
      SameCache(env, s, Unpause(s, call));
      AfterPolicyComplete(env, Unpause(s, call), call, s.paused[call].input, scope, id);
    case PersistScope(call, found, now, id) =>
      SameCache(env, s, Unpause(s, call));
      AfterPersistComplete(env, Unpause(s, call), call, s.paused[call].input, found, now, id);
    case Resolve(id, d, persist, now, saved) =>
      if id in s.pending { ResolveComplete(env, s, id, d, persist, now, saved); }
    case Timeout(id) =>
      if id in s.pending { SameCache(env, s, Forget(s, id)); LogComplete(env, Forget(s, id), Settled(s.pending[id].call, Refused(TimedOut))); }
    case CancelPending(id, origin) =>
      if id in s.pending { SameCache(env, s, Forget(s, id)); LogComplete(env, Forget(s, id), Settled(s.pending[id].call, Refused(origin))); }
    case Drain => DrainComplete(env, s);
    case SetPolicies(_, _) => SameCache(env, s, Next(env, s, t));
    case Elsewhere(op) =>
      LogComplete(env, s, Wrote(op, None));
      SameCache(env, Log(s, Wrote(op, None)), Next(env, s, t));
  }

  lemma {:induction false} RunComplete(env: Env, disk0: seq<Store.Entry>, s: State, ts: seq<Step>)
    requires CacheComplete(env, s) && Inv(env, disk0, s) && ValidRun(env, s, ts)
    ensures CacheComplete(env, Run(env, s, ts))
    decreases |ts|
  {
    if ts != [] {
      StepComplete(env, disk0, s, ts[0]);
      StepKeeps(env, disk0, s, ts[0]);
      RunComplete(env, disk0, Next(env, s, ts[0]), ts[1..]);
    }
  }

  /** In every run the cache is exactly the signatures the operator allowed for the session since the last drain. */
  lemma CacheIsLog(env: Env, s: State, ts: seq<Step>, sig: string)
    requires Initial(s) && ValidRun(env, s, ts)
    ensures sig in Run(env, s, ts).cache <==> Cached(env, Run(env, s, ts).log, sig)
  {
    RunKeeps(env, s.disk, s, ts);
    RunComplete(env, s.disk, s, ts);
  }

  // ---------------------------------------------------------------------------------------------
  // Outcomes.
  // ---------------------------------------------------------------------------------------------

  /** The call was answered at once with this result. */
  predicate AnsweredWith(s: State, call: nat, r: Result) {
    s.log != [] && s.log[|s.log| - 1] == Settled(call, r)
  }

  /** The call waits under this id, on a card with this reason. */
  predicate ShownAs(s: State, call: nat, id: string, gate: GateDecision, persistable: bool) {
    && gate.Gated? && s.log != [] && s.log[|s.log| - 1] == Card(call, id, gate.trigger, gate.kinds, persistable)
    && id in s.pending && s.pending[id].call == call
  }

  /** A call in bypass mode that waits for its repository before the policy is consulted. */
  predicate AsksScope(env: Env, s: State, i: HookInput) {
    IsBypass(i) && s.repos != map[] && env.hasResolver
  }

  ghost predicate SecretReason(env: Env, s: State, i: HookInput, scope: Option<string>) {
    if IsBypass(i) then exists cat :: cat in {SecretEgress, SecretFileEdit} && Matches(env.c, i, s.fallback, s.repos, env.envEnabled, scope, cat)
    else HasSecret(env.c, i)
  }

  ghost predicate OtherReason(env: Env, s: State, i: HookInput, scope: Option<string>) {
    if IsBypass(i) then exists cat :: cat !in {SecretEgress, SecretFileEdit} && Matches(env.c, i, s.fallback, s.repos, env.envEnabled, scope, cat)
    else i.hookEvent == "PermissionRequest" || !Harmless(env.c, i)
  }

  /**
   The operator must be asked: in bypass mode when the policy covers the call, otherwise when it leaks a
   secret, is a permission request, or is not harmless.
   */
  ghost predicate MustAsk(env: Env, s: State, i: HookInput, scope: Option<string>) {
    SecretReason(env, s, i, scope) || OtherReason(env, s, i, scope)
  }

  /** The call waits under this id, on a card that says why. */
  ghost predicate ShownFor(env: Env, s: State, i: HookInput, scope: Option<string>, t: State, call: nat, id: string, persistable: bool) {
    && id in t.pending && t.pending[id].call == call
    && t.log != [] && var e := t.log[|t.log| - 1];
       && e.Card? && e.call == call && e.id == id && e.persistable == persistable
       && e.trigger == TriggerFor(SecretReason(env, s, i, scope), OtherReason(env, s, i, scope))
       && forall k :: k in e.kinds <==> SecretReason(env, s, i, scope) && IsSecretKind(env.c, i, k)
  }

  /** Whether an approval of the call may be remembered on disk: a quiet medium-risk command before its use, structure allowing. */
  predicate Remembers(env: Env, i: HookInput, command: string) {
    && env.persist.Some? && env.persist.value.enabled
    && !IsBypass(i) && i.hookEvent == "PreToolUse"
    && RunsCommand(i, command) && env.c.risk(command) == Medium && !env.c.persistDenied(command)
  }

  ghost predicate MayRemember(env: Env, i: HookInput) {
    !HasSecret(env.c, i) && exists command :: Remembers(env, i, command)
  }

  function GateFor(env: Env, s: State, i: HookInput, scope: Option<string>): GateDecision {
    if IsBypass(i) then BypassGate(env.c, i, EffectiveLivePolicy(s.fallback, s.repos, env.envEnabled, scope))
    else NormalGate(env.c, i)
  }

  lemma GateForExact(env: Env, s: State, i: HookInput, scope: Option<string>)
    ensures var gate := GateFor(env, s, i, scope);
      && (gate.Gated? <==> MustAsk(env, s, i, scope))
      && (gate.Gated? ==> gate.trigger == TriggerFor(SecretReason(env, s, i, scope), OtherReason(env, s, i, scope)))
      && (gate.Gated? ==> forall k :: k in gate.kinds <==> SecretReason(env, s, i, scope) && IsSecretKind(env.c, i, k))
  {
    if IsBypass(i) {
      BypassGateExact(env.c, i, s.fallback, s.repos, env.envEnabled, scope);
    } else {
      NormalGateExact(env.c, i);
    }
  }

  lemma MayRememberExact(env: Env, i: HookInput)
    ensures MayRemember(env, i) <==> !IsBypass(i) && MayPersist(env, i)
  {
    SecretTriggerExact(env.c, i);
    NamesApart(i);
    if PersistableBash(env.c, i) && MayPersist(env, i) && !IsBypass(i) {
      assert Remembers(env, i, Field(i, "command").value);
    }
  }

  /** What may be remembered must be asked about, so the allowlist is reached. */
  lemma RememberedIsAsked(env: Env, s: State, i: HookInput)
    requires MayRemember(env, i)
    ensures MustAsk(env, s, i, None)
  {
    var command :| Remembers(env, i, command);
    assert RunsCommand(i, command) && env.c.risk(command) != Low;
  }

  /**
   In any reachable state, exactly what a call comes to.  In bypass mode it waits for its repository iff
   there are overrides and a resolver.  Otherwise it is deferred iff the operator need not be asked;
   allowed unattended iff asking is due, the call is quiet, and the log holds a session grant for its
   signature; looked up in the allowlist iff not so allowed and its approval may be remembered; and
   shown to the operator, with the reason, otherwise.
   */
  lemma CallOutcomeExact(env: Env, s0: State, ts: seq<Step>, i: HookInput, id: string)
    requires Initial(s0) && ValidRun(env, s0, ts) && FreshId(Run(env, s0, ts).log, id)
    ensures var s := Run(env, s0, ts);
      var asks, must := AsksScope(env, s, i), MustAsk(env, s, i, None);
      var hit := Quiet(env, i) && Cached(env, s.log, Sig(env, i));
      var t, call := Next(env, s, Begin(i, id)), |s.log|;
      && (AnsweredWith(t, call, Defer) <==> !asks && !must)
      && (AnsweredWith(t, call, AutoAllow) <==> must && hit)
      && (call in t.paused <==> asks || (!hit && MayRemember(env, i)))
      && (ShownFor(env, s, i, None, t, call, id, false) <==> !asks && must && !hit && !MayRemember(env, i))
  {
    var s := Run(env, s0, ts);
    CacheIsLog(env, s0, ts, Sig(env, i));
    QuietExact(env, i);
    RunKeeps(env, s0.disk, s0, ts);
    assert forall call :: call in s.paused ==> CalledAt(s.log, call);
    GateForExact(env, s, i, None);
    MayRememberExact(env, i);
    if MayRemember(env, i) { RememberedIsAsked(env, s, i); }
    if IsBypass(i) {
      BypassCases(env, s, i, id);
    } else {
      OutcomeCases(env, s, i, id);
      ShownCases(env, s, i, id);
    }
  }

  /** A card just shown with the gate's reason. */
  lemma ShownByGate(env: Env, s: State, i: HookInput, scope: Option<string>, t: State, call: nat, id: string, persistable: bool)
    ensures ShownAs(t, call, id, GateFor(env, s, i, scope), persistable) ==> ShownFor(env, s, i, scope, t, call, id, persistable)
  {
    GateForExact(env, s, i, scope);
  }

  lemma OutcomeCases(env: Env, s: State, i: HookInput, id: string)
    requires FreshId(s.log, id) && !IsBypass(i) && |s.log| !in s.paused
    ensures var gate, hit := NormalGate(env.c, i), !SecretTriggered(NormalGate(env.c, i)) && Sig(env, i) in s.cache;
      var t, call := Next(env, s, Begin(i, id)), |s.log|;
      && (AnsweredWith(t, call, Defer) <==> gate.Ungated?)
      && (AnsweredWith(t, call, AutoAllow) <==> gate.Gated? && hit)
      && (call in t.paused <==> gate.Gated? && !hit && MayPersist(env, i))
  {
  }

  lemma ShownCases(env: Env, s: State, i: HookInput, id: string)
    requires FreshId(s.log, id) && !IsBypass(i) && |s.log| !in s.paused
    ensures var gate, hit := NormalGate(env.c, i), !SecretTriggered(NormalGate(env.c, i)) && Sig(env, i) in s.cache;
      ShownFor(env, s, i, None, Next(env, s, Begin(i, id)), |s.log|, id, false) <==> gate.Gated? && !hit && !MayPersist(env, i)
  {
    ShownByGate(env, s, i, None, Next(env, s, Begin(i, id)), |s.log|, id, false);
  }

  lemma BypassCases(env: Env, s: State, i: HookInput, id: string)
    requires FreshId(s.log, id) && IsBypass(i) && |s.log| !in s.paused
    ensures var asks, gate := AsksScope(env, s, i), GateFor(env, s, i, None);
      var t, call := Next(env, s, Begin(i, id)), |s.log|;
      && (AnsweredWith(t, call, Defer) <==> !asks && gate.Ungated?)
      && !AnsweredWith(t, call, AutoAllow)
      && (call in t.paused <==> asks)
      && (ShownFor(env, s, i, None, t, call, id, false) <==> !asks && gate.Gated?)
  {
    ShownByGate(env, s, i, None, Next(env, s, Begin(i, id)), |s.log|, id, false);
  }

  /** A call that waited for its repository is deferred iff the policy now in memory for that repository does not cover it, and shown otherwise. */
  lemma ScopeOutcomeExact(env: Env, s0: State, ts: seq<Step>, call: nat, scope: Option<string>, id: string)
    requires Initial(s0) && ValidRun(env, s0, ts) && Enabled(env, Run(env, s0, ts), PolicyScope(call, scope, id))
    ensures var s := Run(env, s0, ts);
      var i, t := s.paused[call].input, Next(env, s, PolicyScope(call, scope, id));
      && IsBypass(i)
      && (AnsweredWith(t, call, Defer) <==> !MustAsk(env, s, i, scope))
      && (ShownFor(env, s, i, scope, t, call, id, false) <==> MustAsk(env, s, i, scope))
      && call !in t.paused
  {
    RunKeeps(env, s0.disk, s0, ts);
    var s := Run(env, s0, ts);
    assert PausedOk(env, s.log, call, s.paused[call]);
    GateForExact(env, s, s.paused[call].input, scope);
    ScopeCases(env, s, call, scope, id);
  }

  lemma ScopeCases(env: Env, s: State, call: nat, scope: Option<string>, id: string)
    requires Enabled(env, s, PolicyScope(call, scope, id)) && IsBypass(s.paused[call].input)
    ensures var i, t := s.paused[call].input, Next(env, s, PolicyScope(call, scope, id));
      var gate := GateFor(env, s, i, scope);
      && (AnsweredWith(t, call, Defer) <==> gate.Ungated?)
      && (ShownFor(env, s, i, scope, t, call, id, false) <==> gate.Gated?)
      && call !in t.paused
  {
    ShownByGate(env, s, s.paused[call].input, scope, Next(env, s, PolicyScope(call, scope, id)), call, id, false);
  }

  /** A call that waited for the allowlist is allowed exactly if its repository was identified and the file, as written so far, has an unexpired grant; else it is shown, persistable iff identified. */
  lemma LookupOutcomeExact(env: Env, s0: State, ts: seq<Step>, call: nat, found: Option<Repo>, now: int, id: string)
    requires Initial(s0) && ValidRun(env, s0, ts) && Enabled(env, Run(env, s0, ts), PersistScope(call, found, now, id))
    ensures var s := Run(env, s0, ts);
      var i, t := s.paused[call].input, Next(env, s, PersistScope(call, found, now, id));
      var granted := found.Some? && Store.Has(Store.Run(s0.disk, Writes(s.log)), Store.Key(Sig(env, i), found.value.scope), now);
      && (AnsweredWith(t, call, GrantAllow) <==> granted)
      && (ShownFor(env, s, i, None, t, call, id, found.Some?) <==> !granted)
      && call !in t.paused
  {
    RunKeeps(env, s0.disk, s0, ts);
    var s := Run(env, s0, ts);
    assert PausedOk(env, s.log, call, s.paused[call]);
    LookupCases(env, s, call, found, now, id);
  }

  lemma LookupCases(env: Env, s: State, call: nat, found: Option<Repo>, now: int, id: string)
    requires Enabled(env, s, PersistScope(call, found, now, id)) && !IsBypass(s.paused[call].input)
    ensures var i, t := s.paused[call].input, Next(env, s, PersistScope(call, found, now, id));
      var granted := found.Some? && Store.Has(s.disk, Store.Key(Sig(env, i), found.value.scope), now);
      && (AnsweredWith(t, call, GrantAllow) <==> granted)
      && (ShownFor(env, s, i, None, t, call, id, found.Some?) <==> !granted)
      && call !in t.paused
  {
    ShownByGate(env, s, s.paused[call].input, None, Next(env, s, PersistScope(call, found, now, id)), call, id, found.Some?);
  }

  /**
   A change of a repository's policy decides the next call there in bypass mode: the operator is asked
   exactly if the policy is enabled, as given or as before, and one of its categories, as given or as
   before, covers the call.
   */
  lemma PolicyChangeTakesEffect(env: Env, s: State, t: State, u: PolicyStore.Mutation, d: PolicyStore.Delta, i: HookInput)
    requires u.ChangeRepo? && PolicyStore.ChangeDone(s.fallback, s.repos, u, t.fallback, t.repos, d) && IsBypass(i)
    ensures MustAsk(env, t, i, Some(u.scope)) <==>
      (&& env.envEnabled && s.fallback.Some?
       && (if u.enabled.Some? then u.enabled.value else u.scope in s.repos ==> s.repos[u.scope].config.enabled)
       && exists cat :: && FallsUnder(env.c, i, cat)
                        && if u.categories.Some? then cat in u.categories.value
                           else u.scope in s.repos && cat in s.repos[u.scope].config.categories)
  {
    var entry := t.repos[u.scope];
    forall cat ensures Matches(env.c, i, t.fallback, t.repos, env.envEnabled, Some(u.scope), cat) <==>
      FallsUnder(env.c, i, cat) && env.envEnabled && s.fallback.Some? && entry.config.enabled && cat in entry.config.categories { }
  }

  /** Without an override the default decides again, as it stands or as it was just changed. */
  lemma DefaultDecidesAgain(env: Env, s: State, t: State, u: PolicyStore.Mutation, d: PolicyStore.Delta, i: HookInput, scope: string)
    requires PolicyStore.ChangeDone(s.fallback, s.repos, u, t.fallback, t.repos, d) && IsBypass(i)
    requires u == PolicyStore.Unset(scope) || (u.ChangeDefault? && scope !in s.repos)
    ensures MustAsk(env, t, i, Some(scope)) <==>
      (&& env.envEnabled && t.fallback.Some? && t.fallback.value.enabled
       && exists cat :: FallsUnder(env.c, i, cat) && cat in t.fallback.value.categories)
  {
    forall cat ensures Matches(env.c, i, t.fallback, t.repos, env.envEnabled, Some(scope), cat) <==>
      (FallsUnder(env.c, i, cat) && env.envEnabled && t.fallback.Some? && t.fallback.value.enabled
       && cat in t.fallback.value.categories) { }
  }

  /** What a waiting request's call is told: allowed exactly by an allow of the operator, never as automatic or from disk. */
  predicate ToldByOperator(r: Result, d: Decision) {
    && (r.behavior == Allowed <==> d == Allow || d == AllowForSession)
    && (r.behavior == Denied <==> d == Deny || d == CancelIt)
    && r.decision == Some(d) && !r.autoAllowed && !r.persistGrant && r.origin == Some(Operator)
  }

  /** Denied without a decision, by this origin. */
  predicate ToldRefused(r: Result, origin: Origin) {
    r.behavior == Denied && r.decision.None? && !r.autoAllowed && !r.persistGrant && r.origin == Some(origin)
  }

  /** After it, the id waits no more, the others wait on, and the record ends with its call being settled. */
  predicate SettledNow(s: State, t: State, id: string)
    requires id in s.pending
  {
    && t.pending == s.pending - {id} && t.log != []
    && t.log[|t.log| - 1].Settled? && t.log[|t.log| - 1].call == s.pending[id].call
  }

  /**
   In any reachable state, what an answer does: nothing for an id that does not wait; otherwise its call
   is told the operator's decision, and the cache gains the signature exactly if a quiet request was
   allowed for the session.
   */
  lemma AnswerExact(env: Env, s0: State, ts: seq<Step>, id: string, d: Decision, persist: bool, now: int, saved: bool)
    requires Initial(s0) && ValidRun(env, s0, ts)
    ensures var s := Run(env, s0, ts);
      var t := Next(env, s, Resolve(id, d, persist, now, saved));
      if id !in s.pending then t == s
      else
        && CalledAt(s.log, s.pending[id].call) && SettledNow(s, t, id) && ToldByOperator(t.log[|t.log| - 1].result, d)
        && var i := s.log[s.pending[id].call].input;
           t.cache == s.cache + if d == AllowForSession && Quiet(env, i) then {Sig(env, i)} else {}
  {
    var s := Run(env, s0, ts);
    RunKeeps(env, s0.disk, s0, ts);
    if id in s.pending {
      assert Backed(env, s.log, id, s.pending[id]);
      ResolveShape(env, s, id, d, persist, now, saved);
    }
  }

  /** What a timeout and a cancel do: nothing for an id that does not wait; otherwise its call is refused, and neither cache nor file changes. */
  lemma RefuseExact(env: Env, s: State, id: string, origin: Origin)
    ensures var c, e := Next(env, s, CancelPending(id, origin)), Next(env, s, Timeout(id));
      if id !in s.pending then c == s && e == s
      else
        && SettledNow(s, c, id) && ToldRefused(c.log[|c.log| - 1].result, origin)
        && SettledNow(s, e, id) && ToldRefused(e.log[|e.log| - 1].result, TimedOut)
        && c.cache == e.cache == s.cache && c.disk == e.disk == s.disk
  {
  }

  lemma ResolveShape(env: Env, s: State, id: string, d: Decision, persist: bool, now: int, saved: bool)
    requires id in s.pending
    ensures var a, p := ResolveStep(env, s, id, d, persist, now, saved), s.pending[id];
      && a.pending == s.pending - {id} && a.log != []
      && a.log[|a.log| - 1] == Settled(p.call, Answer(d))
      && a.cache == s.cache + if d == AllowForSession && p.cacheable then {p.signature} else {}
  {
  }

  /** The three answers given without asking: no answer, an allow from the session, an allow from the allowlist. */
  lemma UnattendedResults()
    ensures Defer.behavior == Deferred && !Defer.autoAllowed && !Defer.persistGrant && Defer.decision.None? && Defer.origin.None?
    ensures AutoAllow.behavior == GrantAllow.behavior == Allowed && AutoAllow.autoAllowed && GrantAllow.autoAllowed
    ensures !AutoAllow.persistGrant && GrantAllow.persistGrant && AutoAllow.decision.None? && GrantAllow.decision.None?
    ensures AutoAllow.origin.None? && GrantAllow.origin.None?
  {
  }

  /** A persistent allow that is saved is in force until it expires, and only such an answer writes the file. */
  lemma PersistTakesEffect(env: Env, s: State, id: string, d: Decision, persist: bool, now: int, saved: bool, t: int)
    requires id in s.pending
    ensures var s', p := Next(env, s, Resolve(id, d, persist, now, saved)), s.pending[id];
      if Persists(env, p, d, persist) && saved then
        var key := Store.Key(p.signature, p.repo.value.scope);
        Store.Readable(key) ==> (Store.Has(s'.disk, key, t) <==> t < now + env.persist.value.ttl)
      else s'.disk == s.disk
  {
    var p := s.pending[id];
    if Persists(env, p, d, persist) && saved {
      var key := Store.Key(p.signature, p.repo.value.scope);
      var op := Grant(env, p, now);
      forall x ensures Store.Holds(Store.Apply(s.disk, op), key, x) <==> Store.Readable(key) && x == now + env.persist.value.ttl {
        Store.StepExact(s.disk, op, key, x);
      }
      HasFromHolds(Store.Apply(s.disk, op), key, t);
    }
  }

  lemma HasFromHolds(f: seq<Store.Entry>, key: Store.Key, t: int)
    ensures Store.Has(f, key, t) <==> exists x :: x > t && Store.Holds(f, key, x)
  {
    if Store.Has(f, key, t) {
      var e :| e in Store.ReadEntries(f) && e.key == key && e.expiresAt > t;
      assert Store.Holds(f, key, e.expiresAt);
    }
  }
}
