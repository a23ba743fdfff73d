/**
 Where every allow of the approval bridge comes from.

 Main results, over every run: `AllowsAreJustified` and `DiskGrantTraced` (the operator's answer to that
 very request, a session grant since the last drain, or an unexpired allowlist entry and who wrote it)
 and `SessionHitSameOperation`.
 */
module BridgeProvenance {
  import opened Options
  import opened Hashing
  import opened Policies
  import opened Gate
  import opened ApprovalBridge
  import Store = AllowlistStore

  // ---------------------------------------------------------------------------------------------
  // What the log says.  Every predicate below looks only at the log up to the position it is about.
  // ---------------------------------------------------------------------------------------------

  /** Not in bypass mode, and no scanned field would be changed by the redactor. */
  ghost predicate Quiet(env: Env, i: HookInput) {
    !IsBypass(i) && !HasSecret(env.c, i)
  }

  predicate CalledAt(log: seq<Event>, call: nat) {
    call < |log| && log[call].Called?
  }

  predicate CardAt(log: seq<Event>, k: nat, call: nat, id: string) {
    k < |log| && log[k].Card? && log[k].call == call && log[k].id == id
  }

  ghost predicate HasCard(log: seq<Event>, call: nat, id: string) {
    exists k :: CardAt(log, k, call, id)
  }

  predicate FoundAt(log: seq<Event>, k: nat, call: nat, scope: string) {
    k < |log| && log[k].ScopeFound? && log[k].call == call && log[k].scope == scope
  }

  ghost predicate HasScope(log: seq<Event>, call: nat, scope: string) {
    exists k :: FoundAt(log, k, call, scope)
  }

  /** Position j: the operator allowed, for the session, a request with this signature that is quiet. */
  ghost predicate SessionGrant(env: Env, log: seq<Event>, j: nat, sig: string) {
    && j < |log| && log[j].Decided? && log[j].decision == AllowForSession
    && log[j].call < j && CalledAt(log, log[j].call)
    && Sig(env, log[log[j].call].input) == sig
    && Quiet(env, log[log[j].call].input)
    && HasCard(log[..j], log[j].call, log[j].id)
  }

  predicate NoDrain(log: seq<Event>, from: nat, to: nat) {
    forall k :: from <= k < to && k < |log| ==> !log[k].Drained?
  }

  function Writes(log: seq<Event>): seq<Store.Op> {
    if log == [] then []
    else
      var n := |log| - 1;
      if log[n].Wrote? then Writes(log[..n]) + [log[n].op] else Writes(log[..n])
  }

  /** Position k settles a request the operator allowed: that very request, on its own card. */
  ghost predicate ByOperator(log: seq<Event>, k: nat)
    requires k < |log| && log[k].Settled?
  {
    && log[k].result.origin == Some(Operator) && !log[k].result.autoAllowed
    && exists j :: && 0 <= j < k && log[j].Decided? && log[j].call == log[k].call
                   && log[j].decision in {Allow, AllowForSession}
                   && log[k].result.decision == Some(log[j].decision)
                   && HasCard(log[..j], log[j].call, log[j].id)
  }

  /** Position k is a session-cache hit: same signature, granted earlier by the operator, no drain in between. */
  ghost predicate BySession(env: Env, log: seq<Event>, k: nat)
    requires k < |log| && log[k].Settled?
  {
    && log[k].result == AutoAllow
    && CalledAt(log, log[k].call) && Quiet(env, log[log[k].call].input)
    && exists j :: 0 <= j < k && SessionGrant(env, log, j, Sig(env, log[log[k].call].input)) && NoDrain(log, j, k)
  }

  /** Position k is an allowlist hit: at j the repository was identified, and the file as written so far had the grant. */
  ghost predicate ByDisk(env: Env, disk0: seq<Store.Entry>, log: seq<Event>, k: nat)
    requires k < |log| && log[k].Settled?
  {
    && log[k].result == GrantAllow
    && CalledAt(log, log[k].call) && Quiet(env, log[log[k].call].input)
    && PersistableBash(env.c, log[log[k].call].input)
    && log[log[k].call].input.hookEvent == "PreToolUse"
    && exists j :: && 0 <= j < k && log[j].ScopeFound? && log[j].call == log[k].call
                   && Store.Has(
                        Store.Run(disk0, Writes(log[..j])),
                        Store.Key(Sig(env, log[log[k].call].input), log[j].scope), log[j].now)
  }

  ghost predicate Justified(env: Env, disk0: seq<Store.Entry>, log: seq<Event>, k: nat)
    requires k < |log|
  {
    && (log[k].Settled? && log[k].result.behavior == Allowed ==>
          ByOperator(log, k) || BySession(env, log, k) || ByDisk(env, disk0, log, k))
    && (log[k].Drained? ==> log[k].result == Refused(Shutdown))
  }

  /** An allowlist write by this bridge follows an operator's persistent allow of a quiet, persistable request in that repository. */
  ghost predicate WriteBacked(env: Env, log: seq<Event>, m: nat)
    requires m < |log|
  {
    log[m].Wrote? && log[m].cause.Some? ==>
      var j, op := log[m].cause.value, log[m].op;
      && j < m && op.Add? && env.persist.Some? && op.ttl == env.persist.value.ttl
      && SessionGrant(env, log, j, op.key.signature) && log[j].persist
      && PersistableBash(env.c, log[log[j].call].input)
      && HasScope(log[..j], log[j].call, op.key.repoScope)
  }

  // ---------------------------------------------------------------------------------------------
  // The invariant.
  // ---------------------------------------------------------------------------------------------

  ghost predicate Backed(env: Env, log: seq<Event>, id: string, p: Pending) {
    && CalledAt(log, p.call)
    && p.signature == Sig(env, log[p.call].input)
    && (p.cacheable <==> Quiet(env, log[p.call].input))
    && HasCard(log, p.call, id)
    && (p.persistable ==> p.repo.Some? && PersistableBash(env.c, log[p.call].input)
                          && HasScope(log, p.call, p.repo.value.scope))
  }

  ghost predicate PausedOk(env: Env, log: seq<Event>, call: nat, p: Paused) {
    && CalledAt(log, call) && log[call].input == p.input
    && match p
       case AtPolicy(i) => IsBypass(i)
       case AtPersist(i) => Quiet(env, i) && MayPersist(env, i) && NormalGate(env.c, i).Gated?
  }

  ghost predicate Cached(env: Env, log: seq<Event>, sig: string) {
    exists j :: SessionGrant(env, log, j, sig) && NoDrain(log, j, |log|)
  }

  ghost predicate Inv(env: Env, disk0: seq<Store.Entry>, s: State) {
    && (forall id :: id in s.pending ==> Backed(env, s.log, id, s.pending[id]))
    && (forall sig :: sig in s.cache ==> Cached(env, s.log, sig))
    && (forall call :: call in s.paused ==> PausedOk(env, s.log, call, s.paused[call]))
    && s.disk == Store.Run(disk0, Writes(s.log))
    && (forall k :: 0 <= k < |s.log| ==> Justified(env, disk0, s.log, k))
    && (forall m :: 0 <= m < |s.log| ==> WriteBacked(env, s.log, m))
  }

  // ---------------------------------------------------------------------------------------------
  // Appending to the log keeps what it said.
  // ---------------------------------------------------------------------------------------------

  lemma CardsStay(log: seq<Event>, e: Event, call: nat, id: string)
    requires HasCard(log, call, id)
    ensures HasCard(log + [e], call, id)
  {
    var k :| CardAt(log, k, call, id);
    assert CardAt(log + [e], k, call, id);
  }

  lemma ScopesStay(log: seq<Event>, e: Event, call: nat, scope: string)
    requires HasScope(log, call, scope)
    ensures HasScope(log + [e], call, scope)
  {
    var k :| FoundAt(log, k, call, scope);
    assert FoundAt(log + [e], k, call, scope);
  }

  lemma BackedStays(env: Env, log: seq<Event>, e: Event, id: string, p: Pending)
    requires Backed(env, log, id, p)
    ensures Backed(env, log + [e], id, p)
  {
    CardsStay(log, e, p.call, id);
    if p.persistable { ScopesStay(log, e, p.call, p.repo.value.scope); }
  }

  lemma PrefixStays(log: seq<Event>, e: Event, j: nat)
    requires j <= |log|
    ensures (log + [e])[..j] == log[..j]
  {
  }

  lemma GrantStays(env: Env, log: seq<Event>, e: Event, j: nat, sig: string)
    requires j < |log|
    ensures SessionGrant(env, log + [e], j, sig) <==> SessionGrant(env, log, j, sig)
  {
    PrefixStays(log, e, j);
  }

  lemma CachedStays(env: Env, log: seq<Event>, e: Event, sig: string)
    requires Cached(env, log, sig) && !e.Drained?
    ensures Cached(env, log + [e], sig)
  {
    var j :| SessionGrant(env, log, j, sig) && NoDrain(log, j, |log|);
    GrantStays(env, log, e, j, sig);
    assert NoDrain(log + [e], j, |log| + 1);
  }

  lemma JustifiedStays(env: Env, disk0: seq<Store.Entry>, log: seq<Event>, e: Event, k: nat)
    requires k < |log| && Justified(env, disk0, log, k)
    ensures Justified(env, disk0, log + [e], k)
  {
    var log' := log + [e];
    if log[k].Settled? && log[k].result.behavior == Allowed {
      if ByOperator(log, k) {
        var j :| && 0 <= j < k && log[j].Decided? && log[j].call == log[k].call
                 && log[j].decision in {Allow, AllowForSession}
                 && log[k].result.decision == Some(log[j].decision)
                 && HasCard(log[..j], log[j].call, log[j].id);
        PrefixStays(log, e, j);
        assert log'[j] == log[j];
        assert ByOperator(log', k);
      } else if BySession(env, log, k) {
        var sig := Sig(env, log[log[k].call].input);
        var j :| 0 <= j < k && SessionGrant(env, log, j, sig) && NoDrain(log, j, k);
        GrantStays(env, log, e, j, sig);
        assert NoDrain(log', j, k);
        assert BySession(env, log', k);
      } else {
        var j :| && 0 <= j < k && log[j].ScopeFound? && log[j].call == log[k].call
                 && Store.Has(Store.Run(disk0, Writes(log[..j])),
                              Store.Key(Sig(env, log[log[k].call].input), log[j].scope), log[j].now);
        PrefixStays(log, e, j);
        assert log'[j] == log[j];
        assert ByDisk(env, disk0, log', k);
      }
    }
  }

  lemma WriteStays(env: Env, log: seq<Event>, e: Event, m: nat)
    requires m < |log| && WriteBacked(env, log, m)
    ensures WriteBacked(env, log + [e], m)
  {
    if log[m].Wrote? && log[m].cause.Some? {
      var j := log[m].cause.value;
      GrantStays(env, log, e, j, log[m].op.key.signature);
      PrefixStays(log, e, j);
    }
  }

  lemma WritesAppend(log: seq<Event>, e: Event)
    ensures Writes(log + [e]) == if e.Wrote? then Writes(log) + [e.op] else Writes(log)
  {
    assert (log + [e])[..|log|] == log;
  }

  /** An event with no write, no drain and its own justification keeps the invariant. */
  lemma LogKeeps(env: Env, disk0: seq<Store.Entry>, s: State, e: Event)
    requires Inv(env, disk0, s) && !e.Wrote? && !e.Drained?
    requires Justified(env, disk0, s.log + [e], |s.log|)
    ensures Inv(env, disk0, Log(s, e))
  {
    var s' := Log(s, e);
    forall id | id in s'.pending ensures Backed(env, s'.log, id, s'.pending[id]) {
      BackedStays(env, s.log, e, id, s.pending[id]);
    }
    forall sig | sig in s'.cache ensures Cached(env, s'.log, sig) { CachedStays(env, s.log, e, sig); }
    WritesAppend(s.log, e);
    LogHistoryKeeps(env, disk0, s, e);
  }

  lemma LogHistoryKeeps(env: Env, disk0: seq<Store.Entry>, s: State, e: Event)
    requires Inv(env, disk0, s)
    requires Justified(env, disk0, s.log + [e], |s.log|)
    requires WriteBacked(env, s.log + [e], |s.log|)
    ensures forall k :: 0 <= k < |s.log| + 1 ==> Justified(env, disk0, s.log + [e], k)
    ensures forall m :: 0 <= m < |s.log| + 1 ==> WriteBacked(env, s.log + [e], m)
  {
    forall k | 0 <= k < |s.log| + 1
      ensures Justified(env, disk0, s.log + [e], k) && WriteBacked(env, s.log + [e], k)
    {
      if k < |s.log| {
        JustifiedStays(env, disk0, s.log, e, k);
        WriteStays(env, s.log, e, k);
      }
    }
  }

  lemma QuietExact(env: Env, i: HookInput)
    ensures Quiet(env, i) <==> (!IsBypass(i) && !SecretTriggered(NormalGate(env.c, i)))
  {
    SecretTriggerExact(env.c, i);
  }

  // ---------------------------------------------------------------------------------------------
  // Each step keeps the invariant.
  // ---------------------------------------------------------------------------------------------

  lemma SettleKeeps(env: Env, disk0: seq<Store.Entry>, s: State, call: nat, r: Result)
    requires Inv(env, disk0, s) && r.behavior != Allowed
    ensures Inv(env, disk0, Settle(s, call, r))
  {
    LogKeeps(env, disk0, s, Settled(call, r));
  }

  lemma AskKeeps(env: Env, disk0: seq<Store.Entry>, s: State, call: nat, i: HookInput, gate: GateDecision, repo: Option<Repo>, id: string)
    requires Inv(env, disk0, s) && gate.Gated?
    requires CalledAt(s.log, call) && s.log[call].input == i
    requires !IsBypass(i) ==> gate == NormalGate(env.c, i)
    requires repo.Some? ==> PersistableBash(env.c, i) && HasScope(s.log, call, repo.value.scope)
    ensures Inv(env, disk0, Ask(env, s, call, i, gate, repo, id))
  {
    var e := Card(call, id, gate.trigger, gate.kinds, repo.Some?);
    LogPlain(env, disk0, s, e);
    var s' := Ask(env, s, call, i, gate, repo, id);
    AskBacked(env, s, call, i, gate, repo, id);
    Rebase(env, disk0, Log(s, e), s');
  }

  lemma AskBacked(env: Env, s: State, call: nat, i: HookInput, gate: GateDecision, repo: Option<Repo>, id: string)
    requires gate.Gated? && CalledAt(s.log, call) && s.log[call].input == i
    requires !IsBypass(i) ==> gate == NormalGate(env.c, i)
    requires repo.Some? ==> PersistableBash(env.c, i) && HasScope(s.log, call, repo.value.scope)
    ensures var s' := Ask(env, s, call, i, gate, repo, id);
      Backed(env, s'.log, id, s'.pending[id])
  {
    var s', e := Ask(env, s, call, i, gate, repo, id), Card(call, id, gate.trigger, gate.kinds, repo.Some?);
    QuietExact(env, i);
    assert CardAt(s'.log, |s.log|, call, id);
    if repo.Some? { ScopesStay(s.log, e, call, repo.value.scope); }
  }

  lemma AfterPolicyKeeps(env: Env, disk0: seq<Store.Entry>, s: State, call: nat, i: HookInput, scope: Option<string>, id: string)
    requires Inv(env, disk0, s) && CalledAt(s.log, call) && s.log[call].input == i && IsBypass(i)
    ensures Inv(env, disk0, AfterPolicy(env, s, call, i, scope, id))
  {
    var gate := BypassGate(env.c, i, EffectiveLivePolicy(s.fallback, s.repos, env.envEnabled, scope));
    if gate.Ungated? {
      SettleKeeps(env, disk0, s, call, Defer);
    } else {
      AskKeeps(env, disk0, s, call, i, gate, None, id);
    }
  }

  lemma SessionHitKeeps(env: Env, disk0: seq<Store.Entry>, s: State, call: nat, i: HookInput)
    requires Inv(env, disk0, s) && CalledAt(s.log, call) && s.log[call].input == i && Quiet(env, i)
    requires Sig(env, i) in s.cache
    ensures Inv(env, disk0, Settle(s, call, AutoAllow))
  {
    var e := Settled(call, AutoAllow);
    var log' := s.log + [e];
    var j :| SessionGrant(env, s.log, j, Sig(env, i)) && NoDrain(s.log, j, |s.log|);
    GrantStays(env, s.log, e, j, Sig(env, i));
    assert NoDrain(log', j, |s.log|);
    assert BySession(env, log', |s.log|);
    LogKeeps(env, disk0, s, e);
  }

  lemma AfterGateKeeps(env: Env, disk0: seq<Store.Entry>, s: State, call: nat, i: HookInput, id: string)
    requires Inv(env, disk0, s) && CalledAt(s.log, call) && s.log[call].input == i && !IsBypass(i)
    ensures Inv(env, disk0, AfterGate(env, s, call, i, id))
  {
    var gate := NormalGate(env.c, i);
    QuietExact(env, i);
    if gate.Ungated? {
      SettleKeeps(env, disk0, s, call, Defer);
    } else if !SecretTriggered(gate) && Sig(env, i) in s.cache {
      SessionHitKeeps(env, disk0, s, call, i);
    } else if MayPersist(env, i) {
      assert PausedOk(env, s.log, call, AtPersist(i));
    } else {
      AskKeeps(env, disk0, s, call, i, gate, None, id);
    }
  }

  lemma DiskHitKeeps(env: Env, disk0: seq<Store.Entry>, s: State, call: nat, i: HookInput, scope: string, now: int)
    requires Inv(env, disk0, s) && CalledAt(s.log, call) && s.log[call].input == i
    requires Quiet(env, i) && PersistableBash(env.c, i) && i.hookEvent == "PreToolUse"
    requires |s.log| > 0 && s.log[|s.log| - 1] == ScopeFound(call, scope, now)
    requires Store.Has(s.disk, Store.Key(Sig(env, i), scope), now)
    ensures Inv(env, disk0, Settle(s, call, GrantAllow))
  {
    var e := Settled(call, GrantAllow);
    var log', k, j := s.log + [e], |s.log|, |s.log| - 1;
    assert s.log == s.log[..j] + [s.log[j]];
    WritesAppend(s.log[..j], s.log[j]);
    PrefixStays(s.log, e, j);
    assert log'[j] == ScopeFound(call, scope, now) && log'[k] == e;
    assert ByDisk(env, disk0, log', k);
    LogKeeps(env, disk0, s, e);
  }

  lemma AfterPersistKeeps(env: Env, disk0: seq<Store.Entry>, s: State, call: nat, i: HookInput, found: Option<Repo>, now: int, id: string)
    requires Inv(env, disk0, s) && PausedOk(env, s.log, call, AtPersist(i))
    ensures Inv(env, disk0, AfterPersist(env, s, call, i, found, now, id))
  {
    if found.None? {
      AskKeeps(env, disk0, s, call, i, NormalGate(env.c, i), None, id);
    } else {
      var e := ScopeFound(call, found.value.scope, now);
      LogPlain(env, disk0, s, e);
      var s' := Log(s, e);
      assert FoundAt(s'.log, |s.log|, call, found.value.scope);
      if Store.Has(s.disk, Store.Key(Sig(env, i), found.value.scope), now) {
        DiskHitKeeps(env, disk0, s', call, i, found.value.scope, now);
      } else {
        AskKeeps(env, disk0, s', call, i, NormalGate(env.c, i), found, id);
      }
    }
  }

  lemma StartKeeps(env: Env, disk0: seq<Store.Entry>, s: State, i: HookInput, id: string)
    requires Inv(env, disk0, s)
    ensures Inv(env, disk0, Start(env, s, i, id))
  {
    var call := |s.log|;
    LogPlain(env, disk0, s, Called(i));
    var s' := Log(s, Called(i));
    if !IsBypass(i) {
      AfterGateKeeps(env, disk0, s', call, i, id);
    } else if s.repos != map[] && env.hasResolver {
      assert PausedOk(env, s'.log, call, AtPolicy(i));
    } else {
      AfterPolicyKeeps(env, disk0, s', call, i, None, id);
    }
  }

  lemma DecidedGrants(env: Env, log: seq<Event>, id: string, p: Pending, persist: bool)
    requires Backed(env, log, id, p) && p.cacheable
    ensures SessionGrant(env, log + [Decided(p.call, id, AllowForSession, persist)], |log|, p.signature)
  {
    var log' := log + [Decided(p.call, id, AllowForSession, persist)];
    assert log'[..|log|] == log;
  }

  lemma DecideKeeps(env: Env, disk0: seq<Store.Entry>, s: State, id: string, d: Decision, persist: bool)
    requires Inv(env, disk0, s) && id in s.pending
    ensures Inv(env, disk0, Decide(s, id, d, persist))
  {
    var p := s.pending[id];
    var e := Decided(p.call, id, d, persist);
    LogPlain(env, disk0, s, e);
    DecideCache(env, Log(s, e), s, id, d, persist);
    Rebase(env, disk0, Log(s, e), Decide(s, id, d, persist));
  }

  lemma DecideCache(env: Env, l: State, s: State, id: string, d: Decision, persist: bool)
    requires id in s.pending && l == Log(s, Decided(s.pending[id].call, id, d, persist))
    requires Backed(env, s.log, id, s.pending[id])
    requires forall sig :: sig in l.cache ==> Cached(env, l.log, sig)
    ensures forall sig :: sig in Decide(s, id, d, persist).cache ==> Cached(env, l.log, sig)
  {
    if d == AllowForSession && s.pending[id].cacheable { DecidedCaches(env, s.log, id, s.pending[id], persist); }
  }

  /** An event that settles nothing, writes nothing and drains nothing needs no justification. */
  lemma LogPlain(env: Env, disk0: seq<Store.Entry>, s: State, e: Event)
    requires Inv(env, disk0, s) && !e.Settled? && !e.Wrote? && !e.Drained?
    ensures Inv(env, disk0, Log(s, e))
  {
    assert (s.log + [e])[|s.log|] == e;
    LogKeeps(env, disk0, s, e);
  }

  /** The history stays; what is pending and cached may change as long as it is backed. */
  lemma Rebase(env: Env, disk0: seq<Store.Entry>, s: State, t: State)
    requires Inv(env, disk0, s) && t.log == s.log && t.paused == s.paused && t.disk == s.disk
    requires forall id :: id in t.pending ==> Backed(env, s.log, id, t.pending[id])
    requires forall sig :: sig in t.cache ==> Cached(env, s.log, sig)
    ensures Inv(env, disk0, t)
  {
  }

  lemma DecidedCaches(env: Env, log: seq<Event>, id: string, p: Pending, persist: bool)
    requires Backed(env, log, id, p) && p.cacheable
    ensures Cached(env, log + [Decided(p.call, id, AllowForSession, persist)], p.signature)
  {
    var log' := log + [Decided(p.call, id, AllowForSession, persist)];
    DecidedGrants(env, log, id, p, persist);
    assert NoDrain(log', |log|, |log'|);
  }

  lemma WriteKeeps(env: Env, disk0: seq<Store.Entry>, s: State, op: Store.Op, cause: Option<nat>)
    requires Inv(env, disk0, s) && WriteBacked(env, s.log + [Wrote(op, cause)], |s.log|)
    ensures Inv(env, disk0, Write(s, op, cause))
  {
    var e := Wrote(op, cause);
    var s' := Write(s, op, cause);
    forall id | id in s'.pending ensures Backed(env, s'.log, id, s'.pending[id]) {
      BackedStays(env, s.log, e, id, s.pending[id]);
    }
    forall sig | sig in s'.cache ensures Cached(env, s'.log, sig) { CachedStays(env, s.log, e, sig); }
    WritesAppend(s.log, e);
    var ws := Writes(s.log) + [op];
    assert ws[..|ws| - 1] == Writes(s.log);
    LogHistoryKeeps(env, disk0, s, e);
  }

  lemma GrantBacked(env: Env, s: State, id: string, persist: bool, now: int)
    requires id in s.pending && Backed(env, s.log, id, s.pending[id])
    requires Persists(env, s.pending[id], AllowForSession, persist)
    ensures var s1, op := Decide(s, id, AllowForSession, persist), Grant(env, s.pending[id], now);
      WriteBacked(env, s1.log + [Wrote(op, Some(|s.log|))], |s1.log|)
  {
    var p := s.pending[id];
    var s1 := Decide(s, id, AllowForSession, persist);
    var e := Wrote(Grant(env, p, now), Some(|s.log|));
    DecidedGrants(env, s.log, id, p, persist);
    GrantStays(env, s1.log, e, |s.log|, p.signature);
    PrefixStays(s1.log, e, |s.log|);
    PrefixStays(s.log, s1.log[|s.log|], |s.log|);
    assert s.log[..|s.log|] == s.log;
  }

  lemma AnswerKeeps(env: Env, disk0: seq<Store.Entry>, s: State, j: nat, id: string)
    requires Inv(env, disk0, s) && j < |s.log| && s.log[j].Decided? && HasCard(s.log[..j], s.log[j].call, s.log[j].id)
    ensures Inv(env, disk0, Settle(s, s.log[j].call, Answer(s.log[j].decision)))
  {
    var e := Settled(s.log[j].call, Answer(s.log[j].decision));
    var log', k := s.log + [e], |s.log|;
    PrefixStays(s.log, e, j);
    assert log'[j] == s.log[j] && log'[k] == e;
    if e.result.behavior == Allowed { assert ByOperator(log', k); }
    LogKeeps(env, disk0, s, e);
  }

  lemma ResolveKeeps(env: Env, disk0: seq<Store.Entry>, s: State, id: string, d: Decision, persist: bool, now: int, saved: bool)
    requires Inv(env, disk0, s) && id in s.pending
    ensures Inv(env, disk0, ResolveStep(env, s, id, d, persist, now, saved))
  {
    var p := s.pending[id];
    var s1 := Decide(s, id, d, persist);
    DecideKeeps(env, disk0, s, id, d, persist);
    var j := |s.log|;
    PrefixStays(s.log, s1.log[j], j);
    assert s.log[..j] == s.log;
    if Persists(env, p, d, persist) && saved {
      GrantBacked(env, s, id, persist, now);
      var s2 := Write(s1, Grant(env, p, now), Some(j));
      WriteKeeps(env, disk0, s1, Grant(env, p, now), Some(j));
      PrefixStays(s1.log, s2.log[j + 1], j);
      assert s2.log[j] == s1.log[j];
      AnswerKeeps(env, disk0, s2, j, id);
    } else {
      AnswerKeeps(env, disk0, s1, j, id);
    }
  }

  lemma DrainKeeps(env: Env, disk0: seq<Store.Entry>, s: State)
    requires Inv(env, disk0, s)
    ensures Inv(env, disk0, DrainStep(s))
  {
    var e := Drained(PendingCalls(s), Refused(Shutdown));
    WritesAppend(s.log, e);
    LogHistoryKeeps(env, disk0, s, e);
  }

  lemma StepKeeps(env: Env, disk0: seq<Store.Entry>, s: State, t: Step)
    requires Inv(env, disk0, s) && Enabled(env, s, t)
    ensures Inv(env, disk0, Next(env, s, t))
  {
    match t
    case Begin(i, id) => StartKeeps(env, disk0, s, i, id);
    case PolicyScope(call, scope, id) =>
      AfterPolicyKeeps(env, disk0, Unpause(s, call), call, s.paused[call].input, scope, id);
    case PersistScope(call, found, now, id) =>
      AfterPersistKeeps(env, disk0, Unpause(s, call), call, s.paused[call].input, found, now, id);
    case Resolve(id, d, persist, now, saved) =>
      if id in s.pending { ResolveKeeps(env, disk0, s, id, d, persist, now, saved); }
    case Timeout(id) =>
      if id in s.pending { SettleKeeps(env, disk0, Forget(s, id), s.pending[id].call, Refused(TimedOut)); }
    case CancelPending(id, origin) =>
      if id in s.pending { SettleKeeps(env, disk0, Forget(s, id), s.pending[id].call, Refused(origin)); }
    case Drain => DrainKeeps(env, disk0, s);
    case SetPolicies(_, _) =>
    case Elsewhere(op) => WriteKeeps(env, disk0, s, op, None);
  }

  lemma {:induction false} RunKeeps(env: Env, disk0: seq<Store.Entry>, s: State, ts: seq<Step>)
    requires Inv(env, disk0, s) && ValidRun(env, s, ts)
    ensures Inv(env, disk0, Run(env, s, ts))
    decreases |ts|
  {
    if ts != [] {
      StepKeeps(env, disk0, s, ts[0]);
      RunKeeps(env, disk0, Next(env, s, ts[0]), ts[1..]);
    }
  }

  /**
   In every run, every allow is the operator's answer to that very request, or a session-cache hit on
   a signature the operator allowed for the session since the last drain, or an allowlist hit.
   */
  lemma AllowsAreJustified(env: Env, s: State, ts: seq<Step>, k: nat)
    requires Initial(s) && ValidRun(env, s, ts)
    requires k < |Run(env, s, ts).log|
    ensures Justified(env, s.disk, Run(env, s, ts).log, k)
  {
    RunKeeps(env, s.disk, s, ts);
  }

  /** A session-cache hit is for the same operation the operator allowed, or a hash collision is at hand. */
  lemma SessionHitSameOperation(env: Env, log: seq<Event>, k: nat)
    requires k < |log| && log[k].Settled? && BySession(env, log, k)
    ensures exists j :: && 0 <= j < k && log[j].Decided? && log[j].decision == AllowForSession && NoDrain(log, j, k)
                        && CalledAt(log, log[j].call)
                        && var granted, used := log[log[j].call].input, log[log[k].call].input;
                           Quiet(env, granted) && (OperationOf(env.c, granted) == OperationOf(env.c, used)
                           || Collides(env.H, {SignedText(OperationOf(env.c, granted))}, {SignedText(OperationOf(env.c, used))}))
  {
    var j :| 0 <= j < k && SessionGrant(env, log, j, Sig(env, log[log[k].call].input)) && NoDrain(log, j, k);
    SignatureIdentifies(env.H, env.c, log[log[j].call].input, log[log[k].call].input);
  }

  // ---------------------------------------------------------------------------------------------
  // Allowlist hits, traced to the write that granted them.
  // ---------------------------------------------------------------------------------------------

  lemma {:induction false} WritesComeFromLog(log: seq<Event>, i: nat)
    requires i < |Writes(log)|
    ensures exists m :: 0 <= m < |log| && log[m].Wrote? && log[m].op == Writes(log)[i]
  {
    var n := |log| - 1;
    if i < |Writes(log[..n])| {
      WritesComeFromLog(log[..n], i);
      var m :| 0 <= m < |log[..n]| && log[..n][m].Wrote? && log[..n][m].op == Writes(log[..n])[i];
      assert log[m] == log[..n][m];
    } else {
      assert log[n].Wrote? && log[n].op == Writes(log)[i];
    }
  }

  /** An unexpired entry was in the file from the start and untouched, or is the latest word on its key: an add, not revoked since, unexpired. */
  lemma {:induction false} HasTraced(f: seq<Store.Entry>, ops: seq<Store.Op>, key: Store.Key, now: int)
    requires Store.Has(Store.Run(f, ops), key, now)
    ensures (Store.LastWord(ops, key).Untouched? && Store.Has(f, key, now))
            || (Store.LastWord(ops, key).Granted? && Store.LastWord(ops, key).expiry > now)
  {
    var g := Store.Run(f, ops);
    var e :| e in Store.ReadEntries(g) && e.key == key && e.expiresAt > now;
    Store.GrantExact(f, ops, key, e.expiresAt);
  }

  lemma {:induction false} LastWordIsAdd(ops: seq<Store.Op>, key: Store.Key)
    requires Store.LastWord(ops, key).Granted?
    ensures var w := Store.LastWord(ops, key);
      ops[w.at].Add? && ops[w.at].key == key && ops[w.at].now + ops[w.at].ttl == w.expiry
  {
    var n := |ops| - 1;
    match ops[n]
    case Add(k', _, _, _, _) => if k' != key { LastWordIsAdd(ops[..n], key); }
    case Revoke(_, _) => LastWordIsAdd(ops[..n], key);
    case Clear =>
  }

  /** Write m put this grant in the file, and it was unexpired at `now`. */
  predicate GrantedBy(log: seq<Event>, m: nat, key: Store.Key, now: int) {
    m < |log| && log[m].Wrote? && log[m].op.Add? && log[m].op.key == key && log[m].op.now + log[m].op.ttl > now
  }

  /**
   An allowlist hit at position k rests on a grant for the same signature and repository, unexpired and
   not withdrawn: one in the initial file, one another process wrote, or one this bridge wrote on an
   operator's persistent allow of a quiet, persistable request with that signature in that repository.
   */
  lemma DiskGrantTraced(env: Env, s: State, ts: seq<Step>, k: nat)
    requires Initial(s) && ValidRun(env, s, ts)
    requires var log := Run(env, s, ts).log;
      k < |log| && log[k].Settled? && ByDisk(env, s.disk, log, k)
    ensures var log := Run(env, s, ts).log;
      exists j :: && 0 <= j < k && log[j].ScopeFound? && log[j].call == log[k].call
                  && var key := Store.Key(Sig(env, log[log[k].call].input), log[j].scope);
                     TracedTo(env, s.disk, log, j, key, log[j].now)
  {
    RunKeeps(env, s.disk, s, ts);
    var log := Run(env, s, ts).log;
    var j :| && 0 <= j < k && log[j].ScopeFound? && log[j].call == log[k].call
             && Store.Has(Store.Run(s.disk, Writes(log[..j])),
                          Store.Key(Sig(env, log[log[k].call].input), log[j].scope), log[j].now);
    Traced(env, s.disk, log, j, Store.Key(Sig(env, log[log[k].call].input), log[j].scope), log[j].now);
  }

  ghost predicate TracedTo(env: Env, disk0: seq<Store.Entry>, log: seq<Event>, j: nat, key: Store.Key, now: int)
    requires j <= |log|
  {
    var word := Store.LastWord(Writes(log[..j]), key);
    || (word.Untouched? && Store.Has(disk0, key, now))
    || (&& word.Granted? && word.expiry > now
        && exists m :: 0 <= m < j && GrantedBy(log, m, key, now) && WriteBacked(env, log, m))
  }

  lemma Traced(env: Env, disk0: seq<Store.Entry>, log: seq<Event>, j: nat, key: Store.Key, now: int)
    requires j <= |log| && forall m :: 0 <= m < |log| ==> WriteBacked(env, log, m)
    requires Store.Has(Store.Run(disk0, Writes(log[..j])), key, now)
    ensures TracedTo(env, disk0, log, j, key, now)
  {
    var ops := Writes(log[..j]);
    HasTraced(disk0, ops, key, now);
    var word := Store.LastWord(ops, key);
    if word.Granted? {
      LastWordIsAdd(ops, key);
      WritesComeFromLog(log[..j], word.at);
      var m :| 0 <= m < |log[..j]| && log[..j][m].Wrote? && log[..j][m].op == ops[word.at];
      assert log[..j][m] == log[m];
      assert GrantedBy(log, m, key, now);
    }
  }
}
