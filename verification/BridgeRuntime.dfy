/**
 The approval bridge object.  Each method is one segment of the program between two suspension points
 and is proved to be exactly one step of the state machine, so every result about runs holds of it.
 */
module BridgeRuntime {
  import opened Options
  import opened Policies
  import opened Gate
  import opened ApprovalBridge
  import Store = AllowlistStore
  import PolicyStore

  /** What a segment hands back: a result, a card now waiting for an answer, or a suspension. */
  datatype Outcome = Returned(result: Result) | Shown(id: string) | Suspended

  class Bridge {
    const env: Env
    const store: Store.ApprovalAllowlistStore
    var pending: map<string, Pending>
    var sessionAllowed: set<string>
    var policyDefault: Option<PolicyConfig>
    var policyRepos: map<string, RepoEntry>
    // The suspended calls, and the record of what happened.
    var paused: map<nat, Paused>
    var log: seq<Event>

    constructor (env: Env, store: Store.ApprovalAllowlistStore, policy: Option<PolicyConfig>, repos: map<string, RepoEntry>)
      ensures this.env == env && this.store == store
      ensures View() == State(map[], {}, map[], policy, repos, store.file, []) && Initial(View())
    {
      this.env, this.store := env, store;
      pending, sessionAllowed, policyDefault, policyRepos := map[], {}, policy, repos;
      paused, log := map[], [];
    }

    ghost function View(): State
      reads this, store
    {
      State(pending, sessionAllowed, paused, policyDefault, policyRepos, store.file, log)
    }

    /** The outcome is what the record ends with. */
    ghost predicate Told(o: Outcome, call: nat, id: string)
      reads this
    {
      match o
      case Returned(r) => log != [] && log[|log| - 1] == Settled(call, r)
      case Shown(shown) => shown == id && id in pending && pending[id].call == call
      case Suspended => call in paused
    }

    method Finish(call: nat, r: Result) returns (o: Outcome)
      modifies this
      ensures View() == Settle(old(View()), call, r) && o == Returned(r) && Told(o, call, "")
    {
      log := log + [Settled(call, r)];
      o := Returned(r);
    }

    method ShowCard(call: nat, i: HookInput, gate: GateDecision, repo: Option<Repo>, id: string) returns (o: Outcome)
      requires gate.Gated?
      modifies this
      ensures View() == Ask(env, old(View()), call, i, gate, repo, id) && o == Shown(id) && Told(o, call, id)
    {
      log := log + [Card(call, id, gate.trigger, gate.kinds, repo.Some?)];
      pending := pending[id := Pending(call, Sig(env, i), !IsBypass(i) && !SecretTriggered(gate), repo.Some?, repo)];
      o := Shown(id);
    }

    method PolicyGateSegment(call: nat, i: HookInput, scope: Option<string>, id: string) returns (o: Outcome)
      modifies this
      ensures View() == AfterPolicy(env, old(View()), call, i, scope, id) && Told(o, call, id)
    {
      var live := EffectiveLivePolicy(policyDefault, policyRepos, env.envEnabled, scope);
      var gate := BypassGate(env.c, i, live);
      if gate.Ungated? {
        o := Finish(call, Defer);
      } else {
        o := ShowCard(call, i, gate, None, id);
      }
    }

    /** A hook call arrives: up to its first suspension, its card or its result. */
    method RequestApproval(i: HookInput, id: string) returns (o: Outcome)
      modifies this
      ensures View() == Start(env, old(View()), i, id) && Told(o, |old(log)|, id)
      ensures !IsBypass(i) ==>
        (o == Returned(Defer) <==> i.hookEvent != "PermissionRequest" && Harmless(env.c, i) && !HasSecret(env.c, i))
    {
      var call := |log|;
      log := log + [Called(i)];
      if IsBypass(i) {
        if policyRepos != map[] && env.hasResolver {
          paused := paused[call := AtPolicy(i)];
          return Suspended;
        }
        o := PolicyGateSegment(call, i, None, id);
        return;
      }
      var gate := NormalGate(env.c, i);
      NormalGateExact(env.c, i);
      if gate.Ungated? {
        o := Finish(call, Defer);
      } else if !SecretTriggered(gate) && Sig(env, i) in sessionAllowed {
        o := Finish(call, AutoAllow);
      } else if MayPersist(env, i) {
        paused := paused[call := AtPersist(i)];
        o := Suspended;
      } else {
        o := ShowCard(call, i, gate, None, id);
      }
    }

    /** The policy's repository lookup came back. */
    method OnPolicyScope(call: nat, scope: Option<string>, id: string) returns (o: Outcome)
      requires Enabled(env, View(), PolicyScope(call, scope, id))
      modifies this
      ensures View() == Next(env, old(View()), PolicyScope(call, scope, id)) && Told(o, call, id)
    {
      var i := paused[call].input;
      paused := paused - {call};
      o := PolicyGateSegment(call, i, scope, id);
    }

    /** The allowlist's repository lookup came back. */
    method OnPersistScope(call: nat, found: Option<Repo>, now: int, id: string) returns (o: Outcome)
      requires Enabled(env, View(), PersistScope(call, found, now, id))
      modifies this
      ensures View() == Next(env, old(View()), PersistScope(call, found, now, id)) && Told(o, call, id)
    {
      var i := paused[call].input;
      var gate := NormalGate(env.c, i);
      paused := paused - {call};
      if found.Some? {
        log := log + [ScopeFound(call, found.value.scope, now)];
        if Store.Has(store.file, Store.Key(Sig(env, i), found.value.scope), now) {
          o := Finish(call, GrantAllow);
          return;
        }
      }
      o := ShowCard(call, i, gate, found, id);
    }

    /** The operator answers.  `saved` is false when the disk write fails; the answer stands either way. */
    method ResolveRequest(id: string, d: Decision, persist: bool, now: int, saved: bool) returns (known: bool)
      modifies this, store
      ensures known <==> id in old(pending)
      ensures View() == Next(env, old(View()), Resolve(id, d, persist, now, saved))
    {
      if id !in pending {
        return false;
      }
      var p := pending[id];
      var decidedAt := |log|;
      pending := pending - {id};
      log := log + [Decided(p.call, id, d, persist)];
      if d == AllowForSession && p.cacheable {
        sessionAllowed := sessionAllowed + {p.signature};
        if persist && p.persistable && p.repo.Some? && env.persist.Some? && env.persist.value.enabled && saved {
          var repo, ttl := p.repo.value, env.persist.value.ttl;
          store.AddApproval(Store.Key(p.signature, repo.scope), repo.tag, "medium", ttl, now);
          log := log + [Wrote(Grant(env, p, now), Some(decidedAt))];
        }
      }
      log := log + [Settled(p.call, Answer(d))];
      return true;
    }

    method Refuse(id: string, origin: Origin) returns (known: bool)
      modifies this
      ensures known <==> id in old(pending)
      ensures View() == Next(env, old(View()), CancelPending(id, origin))
      ensures origin == TimedOut ==> View() == Next(env, old(View()), Timeout(id))
    {
      if id !in pending {
        return false;
      }
      var call := pending[id].call;
      pending := pending - {id};
      log := log + [Settled(call, Refused(origin))];
      return true;
    }

    /** Shutdown: every waiting request is refused, in turn, and the session cache is dropped. */
    method DrainAll()
      modifies this
      ensures View() == Next(env, old(View()), Drain)
    {
      var left, settled := pending.Keys, {};
      while left != {}
        invariant left <= pending.Keys
        invariant settled == set id | id in pending && id !in left :: pending[id].call
        decreases left
      {
        var id :| id in left;
        settled := settled + {pending[id].call};
        left := left - {id};
      }
      assert settled == PendingCalls(View());
      log := log + [Drained(settled, Refused(Shutdown))];
      pending, sessionAllowed := map[], {};
    }

    /** The policy held in memory; an absent default behaves like one that gates nothing yet. */
    ghost function Memory(): PolicyStore.Layered
      reads this
    {
      PolicyStore.Layered(if policyDefault.Some? then policyDefault.value else PolicyConfig(true, {}), policyRepos)
    }

    /** A change of the default: an empty set of categories falls back to the preset one. */
    method ChangeDefaultPolicy(enabled: Option<bool>, categories: Option<set<Category>>) returns (d: PolicyStore.Delta)
      modifies this`policyDefault
      ensures PolicyStore.ChangeDone(
        old(policyDefault), policyRepos, PolicyStore.ChangeDefault(enabled, categories), policyDefault, policyRepos, d)
    {
      var base := if policyDefault.Some? then policyDefault.value else PolicyConfig(true, {});
      var cats := if categories.Some? then categories.value else base.categories;
      var config := PolicyConfig(if enabled.Some? then enabled.value else base.enabled, if cats != {} then cats else DEFAULT_GATED);
      policyDefault := Some(config);
      d := PolicyStore.SetDefault(config);
    }

    /** A change of one repository's override, on what it was; an empty set of categories stands. */
    method ChangeRepoPolicy(scope: string, enabled: Option<bool>, categories: Option<set<Category>>, tag: Option<string>)
      returns (d: PolicyStore.Delta)
      modifies this`policyRepos
      ensures PolicyStore.ChangeDone(
        policyDefault, old(policyRepos), PolicyStore.ChangeRepo(scope, enabled, categories, tag), policyDefault, policyRepos, d)
    {
      var base := if scope in policyRepos then policyRepos[scope] else RepoEntry(PolicyConfig(true, {}), None);
      var config := PolicyConfig(
        if enabled.Some? then enabled.value else base.config.enabled,
        if categories.Some? then categories.value else base.config.categories);
      var entry := RepoEntry(config, if tag.Some? then tag else base.tag);
      policyRepos := policyRepos[scope := entry];
      d := PolicyStore.SetRepo(scope, entry);
    }

    /** A policy change from the control channel: memory changes as asked, and the one-key change to persist is handed back. */
    method SetPolicyConfig(u: PolicyStore.Mutation) returns (d: PolicyStore.Delta)
      modifies this
      ensures PolicyStore.ChangeDone(old(policyDefault), old(policyRepos), u, policyDefault, policyRepos, d)
      ensures d == PolicyStore.DeltaOf(old(Memory()), u) && Memory() == PolicyStore.Mutate(old(Memory()), u)
      ensures View() == Next(env, old(View()), SetPolicies(policyDefault, policyRepos))
    {
      match u {
        case ChangeDefault(enabled, categories) => d := ChangeDefaultPolicy(enabled, categories);
        case ChangeRepo(scope, enabled, categories, tag) => d := ChangeRepoPolicy(scope, enabled, categories, tag);
        case Unset(scope) =>
          policyRepos := policyRepos - {scope};
          d := PolicyStore.RemoveRepo(scope);
      }
      PolicyStore.ChangeIsMutation(old(policyDefault), old(policyRepos), u, policyDefault, policyRepos, d);
    }
  }
}
