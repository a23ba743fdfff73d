/**
 The approval bridge as a state machine.

 A call of `requestApproval` runs in segments: each `await` (repository lookups for the policy and for
 the persistent allowlist) and the wait for an answer is a point where any other step may run.  The
 state carries a log of what happened; a call is named by the position of its `Called` event.
 `BridgeProvenance`, `BridgeOnce` and `BridgeOutcomes` prove what every run of it keeps.
 */
module ApprovalBridge {
  import opened Options
  import opened Hashing
  import opened Policies
  import opened Gate
  import Store = AllowlistStore

  datatype Decision = Allow | AllowForSession | Deny | CancelIt
  datatype Origin = Operator | TimedOut | Shutdown | ChildExit | RelayLost
  datatype Behavior = Allowed | Denied | Deferred

  datatype Result = Result(
    behavior: Behavior, decision: Option<Decision>, autoAllowed: bool, persistGrant: bool, origin: Option<Origin>)

  datatype Pending = Pending(
    call: nat, signature: string, cacheable: bool, persistable: bool, repo: Option<Repo>)

  datatype Repo = Repo(scope: string, tag: Option<string>)

  /** A call suspended at an `await`. */
  datatype Paused = AtPolicy(input: HookInput) | AtPersist(input: HookInput)

  datatype PersistConfig = PersistConfig(enabled: bool, ttl: int)

  /** What stays fixed while a bridge lives. */
  datatype Env = Env(H: Sha256, c: Classifier, persist: Option<PersistConfig>, hasResolver: bool, envEnabled: bool)

  datatype Event =
    | Called(input: HookInput)
    | Card(call: nat, id: string, trigger: Trigger, kinds: set<string>, persistable: bool)
    | ScopeFound(call: nat, scope: string, now: int)
    | Decided(call: nat, id: string, decision: Decision, persist: bool)
    | Wrote(op: Store.Op, cause: Option<nat>)
    | Settled(call: nat, result: Result)
    | Drained(calls: set<nat>, result: Result)

  datatype State = State(
    pending: map<string, Pending>,
    cache: set<string>,
    paused: map<nat, Paused>,
    fallback: Option<PolicyConfig>,
    repos: map<string, RepoEntry>,
    disk: seq<Store.Entry>,
    log: seq<Event>)

  datatype Step =
    | Begin(input: HookInput, id: string)
    | PolicyScope(call: nat, scope: Option<string>, id: string)
    | PersistScope(call: nat, found: Option<Repo>, now: int, id: string)
    | Resolve(id: string, decision: Decision, persist: bool, now: int, saved: bool)
    | Timeout(id: string)
    | CancelPending(id: string, origin: Origin)
    | Drain
    | SetPolicies(fallback: Option<PolicyConfig>, repos: map<string, RepoEntry>)
    | Elsewhere(op: Store.Op)

  // ---------------------------------------------------------------------------------------------
  // Steps.
  // ---------------------------------------------------------------------------------------------

  const Defer := Result(Deferred, None, false, false, None)
  const AutoAllow := Result(Allowed, None, true, false, None)
  const GrantAllow := Result(Allowed, None, true, true, None)

  function Refused(origin: Origin): Result {
    Result(Denied, None, false, false, Some(origin))
  }

  function Answer(d: Decision): Result {
    Result(if d == Allow || d == AllowForSession then Allowed else Denied, Some(d), false, false, Some(Operator))
  }

  function Log(s: State, e: Event): State {
    s.(log := s.log + [e])
  }

  function Settle(s: State, call: nat, r: Result): State {
    Log(s, Settled(call, r))
  }

  function Pause(s: State, call: nat, p: Paused): State {
    s.(paused := s.paused[call := p])
  }

  function Unpause(s: State, call: nat): State {
    s.(paused := s.paused - {call})
  }

  function Sig(env: Env, i: HookInput): string {
    Signature(env.H, env.c, i)
  }

  /** Show the card and wait. */
  function Ask(env: Env, s: State, call: nat, i: HookInput, gate: GateDecision, repo: Option<Repo>, id: string): State
    requires gate.Gated?
  {
    var p := Pending(call, Sig(env, i), !IsBypass(i) && !SecretTriggered(gate), repo.Some?, repo);
    Log(s, Card(call, id, gate.trigger, gate.kinds, repo.Some?)).(pending := s.pending[id := p])
  }

  function AfterPolicy(env: Env, s: State, call: nat, i: HookInput, scope: Option<string>, id: string): State {
    var gate := BypassGate(env.c, i, EffectiveLivePolicy(s.fallback, s.repos, env.envEnabled, scope));
    if gate.Ungated? then Settle(s, call, Defer) else Ask(env, s, call, i, gate, None, id)
  }

  predicate MayPersist(env: Env, i: HookInput) {
    && env.persist.Some? && env.persist.value.enabled
    && !SecretTriggered(NormalGate(env.c, i))
    && i.hookEvent == "PreToolUse"
    && PersistableBash(env.c, i)
  }

  function AfterGate(env: Env, s: State, call: nat, i: HookInput, id: string): State {
    var gate := NormalGate(env.c, i);
    if gate.Ungated? then Settle(s, call, Defer)
    else if !SecretTriggered(gate) && Sig(env, i) in s.cache then Settle(s, call, AutoAllow)
    else if MayPersist(env, i) then Pause(s, call, AtPersist(i))
    else Ask(env, s, call, i, gate, None, id)
  }

  function AfterPersist(env: Env, s: State, call: nat, i: HookInput, found: Option<Repo>, now: int, id: string): State
    requires NormalGate(env.c, i).Gated?
  {
    if found.None? then Ask(env, s, call, i, NormalGate(env.c, i), None, id)
    else
      var s' := Log(s, ScopeFound(call, found.value.scope, now));
      if Store.Has(s.disk, Store.Key(Sig(env, i), found.value.scope), now) then Settle(s', call, GrantAllow)
      else Ask(env, s', call, i, NormalGate(env.c, i), found, id)
  }

  function Start(env: Env, s: State, i: HookInput, id: string): State {
    var call := |s.log|;
    var s' := Log(s, Called(i));
    if !IsBypass(i) then AfterGate(env, s', call, i, id)
    else if s.repos != map[] && env.hasResolver then Pause(s', call, AtPolicy(i))
    else AfterPolicy(env, s', call, i, None, id)
  }

  /** The operator's answer recorded, and the request forgotten; an allow for the session is remembered if it may be. */
  function Decide(s: State, id: string, d: Decision, persist: bool): State
    requires id in s.pending
  {
    var p := s.pending[id];
    Log(s, Decided(p.call, id, d, persist)).(
      pending := s.pending - {id},
      cache := if d == AllowForSession && p.cacheable then s.cache + {p.signature} else s.cache)
  }

  predicate Persists(env: Env, p: Pending, d: Decision, persist: bool) {
    && d == AllowForSession && p.cacheable && persist && p.persistable && p.repo.Some?
    && env.persist.Some? && env.persist.value.enabled
  }

  function Grant(env: Env, p: Pending, now: int): Store.Op
    requires p.repo.Some? && env.persist.Some?
  {
    Store.Add(Store.Key(p.signature, p.repo.value.scope), p.repo.value.tag, "medium", env.persist.value.ttl, now)
  }

  function Write(s: State, op: Store.Op, cause: Option<nat>): State {
    Log(s, Wrote(op, cause)).(disk := Store.Apply(s.disk, op))
  }

  function Forget(s: State, id: string): State {
    s.(pending := s.pending - {id})
  }

  function ResolveStep(env: Env, s: State, id: string, d: Decision, persist: bool, now: int, saved: bool): State
    requires id in s.pending
  {
    var p := s.pending[id];
    var s1 := Decide(s, id, d, persist);
    var s2 := if Persists(env, p, d, persist) && saved then Write(s1, Grant(env, p, now), Some(|s.log|)) else s1;
    Settle(s2, p.call, Answer(d))
  }

  function PendingCalls(s: State): set<nat> {
    set id | id in s.pending :: s.pending[id].call
  }

  function DrainStep(s: State): State {
    Log(s, Drained(PendingCalls(s), Refused(Shutdown))).(pending := map[], cache := {})
  }

  predicate FreshId(log: seq<Event>, id: string) {
    forall k :: 0 <= k < |log| && log[k].Card? ==> log[k].id != id
  }

  /** Identifiers offered for new cards are new, and a call resumes from where it is suspended. */
  predicate Enabled(env: Env, s: State, t: Step) {
    match t
    case Begin(_, id) => FreshId(s.log, id)
    case PolicyScope(call, _, id) => FreshId(s.log, id) && call in s.paused && s.paused[call].AtPolicy?
    case PersistScope(call, _, _, id) =>
      FreshId(s.log, id) && call in s.paused && s.paused[call].AtPersist?
      && NormalGate(env.c, s.paused[call].input).Gated?
    case _ => true
  }

  function Next(env: Env, s: State, t: Step): State
    requires Enabled(env, s, t)
  {
    match t
    case Begin(i, id) => Start(env, s, i, id)
    case PolicyScope(call, scope, id) => AfterPolicy(env, Unpause(s, call), call, s.paused[call].input, scope, id)
    case PersistScope(call, found, now, id) =>
      AfterPersist(env, Unpause(s, call), call, s.paused[call].input, found, now, id)
    case Resolve(id, d, persist, now, saved) =>
      if id in s.pending then ResolveStep(env, s, id, d, persist, now, saved) else s
    case Timeout(id) => if id in s.pending then Settle(Forget(s, id), s.pending[id].call, Refused(TimedOut)) else s
    case CancelPending(id, origin) =>
      if id in s.pending then Settle(Forget(s, id), s.pending[id].call, Refused(origin)) else s
    case Drain => DrainStep(s)
    case SetPolicies(fallback, repos) => s.(fallback := fallback, repos := repos)
    case Elsewhere(op) => Write(s, op, None)
  }

  predicate Initial(s: State) {
    s.pending == map[] && s.cache == {} && s.paused == map[] && s.log == []
  }

  predicate ValidRun(env: Env, s: State, ts: seq<Step>)
    decreases |ts|
  {
    ts != [] ==> Enabled(env, s, ts[0]) && ValidRun(env, Next(env, s, ts[0]), ts[1..])
  }

  function Run(env: Env, s: State, ts: seq<Step>): State
    requires ValidRun(env, s, ts)
    decreases |ts|
  {
    if ts == [] then s else Run(env, Next(env, s, ts[0]), ts[1..])
  }
}
