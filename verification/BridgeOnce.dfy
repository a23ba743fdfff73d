/**
 Every request of the approval bridge is settled exactly once.

 Main results, over every run: `SettledExactlyOnce`, `LateAnswersDoNothing`, `DrainSettlesAll` and
 `UnquietNeedsOperator` (secrets and bypass mode are never allowed unattended).
 */
module BridgeOnce {
  import opened Options
  import opened Hashing
  import opened Policies
  import opened Gate
  import opened ApprovalBridge
  import opened BridgeProvenance
  import Store = AllowlistStore

  // ---------------------------------------------------------------------------------------------
  // Every call is settled exactly once.
  // ---------------------------------------------------------------------------------------------

  function SettlesIn(e: Event, call: nat): nat {
    match e
    case Settled(c, _) => if c == call then 1 else 0
    case Drained(calls, _) => if call in calls then 1 else 0
    case _ => 0
  }

  /** How often the log settles a call. */
  function Settles(log: seq<Event>, call: nat): nat {
    if log == [] then 0 else Settles(log[..|log| - 1], call) + SettlesIn(log[|log| - 1], call)
  }

  lemma SettlesAppend(log: seq<Event>, e: Event, call: nat)
    ensures Settles(log + [e], call) == Settles(log, call) + SettlesIn(e, call)
  {
    assert (log + [e])[..|log|] == log;
  }

  predicate Waits(s: State, call: nat) {
    exists id :: id in s.pending && s.pending[id].call == call
  }

  /** In how many ways a call is accounted for: settled, suspended, or waiting for an answer. */
  ghost function Places(s: State, call: nat): nat {
    Settles(s.log, call) + (if call in s.paused then 1 else 0) + (if Waits(s, call) then 1 else 0)
  }

  /** Every call has exactly one place, except the open one (being worked on), which has none. */
  ghost predicate Once(s: State, open: Option<nat>) {
    && (forall call: nat :: Places(s, call) == if CalledAt(s.log, call) && open != Some(call) then 1 else 0)
    && (forall a, b :: a in s.pending && b in s.pending && s.pending[a].call == s.pending[b].call ==> a == b)
  }

  lemma LogOnce(s: State, e: Event, open: Option<nat>)
    requires Once(s, open) && (e.Card? || e.ScopeFound? || e.Decided? || e.Wrote?)
    ensures Once(Log(s, e), open)
  {
    forall call: nat ensures Places(Log(s, e), call) == Places(s, call) { SettlesAppend(s.log, e, call); }
    assert forall call: nat :: CalledAt(s.log + [e], call) <==> CalledAt(s.log, call);
  }

  lemma CalledOnce(s: State, i: HookInput)
    requires Once(s, None)
    ensures Once(Log(s, Called(i)), Some(|s.log|))
  {
    var s' := Log(s, Called(i));
    forall call: nat ensures Places(s', call) == Places(s, call) { SettlesAppend(s.log, Called(i), call); }
    assert forall call: nat :: CalledAt(s'.log, call) <==> CalledAt(s.log, call) || call == |s.log|;
  }

  lemma SettleOnce(s: State, call: nat, r: Result)
    requires Once(s, Some(call)) && CalledAt(s.log, call)
    ensures Once(Settle(s, call, r), None)
  {
    var e := Settled(call, r);
    forall c: nat ensures Places(Settle(s, call, r), c) == Places(s, c) + if c == call then 1 else 0 {
      SettlesAppend(s.log, e, c);
    }
    assert forall c: nat :: CalledAt(s.log + [e], c) <==> CalledAt(s.log, c);
  }

  lemma AskOnce(env: Env, s: State, call: nat, i: HookInput, gate: GateDecision, repo: Option<Repo>, id: string)
    requires Once(s, Some(call)) && CalledAt(s.log, call) && gate.Gated? && id !in s.pending
    ensures Once(Ask(env, s, call, i, gate, repo, id), None)
  {
    var e := Card(call, id, gate.trigger, gate.kinds, repo.Some?);
    LogOnce(s, e, Some(call));
    var l, s' := Log(s, e), Ask(env, s, call, i, gate, repo, id);
    assert Places(l, call) == 0;
    forall c: nat ensures Waits(s', c) <==> Waits(l, c) || c == call {
      if Waits(l, c) {
        var x :| x in l.pending && l.pending[x].call == c;
        assert x in s'.pending && s'.pending[x].call == c;
      }
      assert id in s'.pending && s'.pending[id].call == call;
    }
  }

  lemma PauseOnce(s: State, call: nat, p: Paused)
    requires Once(s, Some(call)) && CalledAt(s.log, call)
    ensures Once(Pause(s, call, p), None)
  {
    var s' := Pause(s, call, p);
    assert Places(s, call) == 0;
    forall c: nat ensures Places(s', c) == Places(s, c) + if c == call then 1 else 0 {
      assert Waits(s', c) <==> Waits(s, c);
    }
  }

  lemma UnpauseOnce(s: State, call: nat)
    requires Once(s, None) && call in s.paused
    ensures CalledAt(s.log, call) && Once(Unpause(s, call), Some(call))
  {
    var s' := Unpause(s, call);
    assert Places(s, call) >= 1;
    forall c: nat ensures Places(s', c) == Places(s, c) - if c == call then 1 else 0 {
      assert Waits(s', c) <==> Waits(s, c);
    }
  }

  lemma ForgetOnce(s: State, id: string)
    requires Once(s, None) && id in s.pending
    ensures CalledAt(s.log, s.pending[id].call) && Once(Forget(s, id), Some(s.pending[id].call))
  {
    var s', call := Forget(s, id), s.pending[id].call;
    assert Waits(s, call) && Places(s, call) >= 1;
    forall c: nat ensures Places(s', c) == Places(s, c) - if c == call then 1 else 0 {
      if c != call && Waits(s, c) {
        var x :| x in s.pending && s.pending[x].call == c;
        assert x in s'.pending && s'.pending[x].call == c;
      }
    }
  }

  lemma DrainOnce(s: State)
    requires Once(s, None)
    ensures Once(DrainStep(s), None)
  {
    var s', e := DrainStep(s), Drained(PendingCalls(s), Refused(Shutdown));
    forall c: nat ensures Places(s', c) == Places(s, c) {
      SettlesAppend(s.log, e, c);
      assert c in PendingCalls(s) <==> Waits(s, c);
      assert !Waits(s', c);
    }
    assert forall c: nat :: CalledAt(s.log + [e], c) <==> CalledAt(s.log, c);
  }

  /** Identifiers in use were shown on a card. */
  ghost predicate Carded(s: State) {
    forall id :: id in s.pending ==> HasCard(s.log, s.pending[id].call, id)
  }

  lemma FreshNotPending(s: State, id: string)
    requires Carded(s) && FreshId(s.log, id)
    ensures id !in s.pending
  {
    assert id in s.pending ==> HasCard(s.log, s.pending[id].call, id);
  }

  lemma AfterPolicyOnce(env: Env, s: State, call: nat, i: HookInput, scope: Option<string>, id: string)
    requires Once(s, Some(call)) && CalledAt(s.log, call) && id !in s.pending
    ensures Once(AfterPolicy(env, s, call, i, scope, id), None)
  {
    var gate := BypassGate(env.c, i, EffectiveLivePolicy(s.fallback, s.repos, env.envEnabled, scope));
    if gate.Ungated? { SettleOnce(s, call, Defer); } else { AskOnce(env, s, call, i, gate, None, id); }
  }

  lemma AfterGateOnce(env: Env, s: State, call: nat, i: HookInput, id: string)
    requires Once(s, Some(call)) && CalledAt(s.log, call) && id !in s.pending
    ensures Once(AfterGate(env, s, call, i, id), None)
  {
    var gate := NormalGate(env.c, i);
    if gate.Ungated? {
      SettleOnce(s, call, Defer);
    } else if !SecretTriggered(gate) && Sig(env, i) in s.cache {
      SettleOnce(s, call, AutoAllow);
    } else if MayPersist(env, i) {
      PauseOnce(s, call, AtPersist(i));
    } else {
      AskOnce(env, s, call, i, gate, None, id);
    }
  }

  lemma AfterPersistOnce(env: Env, s: State, call: nat, i: HookInput, found: Option<Repo>, now: int, id: string)
    requires Once(s, Some(call)) && CalledAt(s.log, call) && id !in s.pending && NormalGate(env.c, i).Gated?
    ensures Once(AfterPersist(env, s, call, i, found, now, id), None)
  {
    if found.None? {
      AskOnce(env, s, call, i, NormalGate(env.c, i), None, id);
    } else {
      var e := ScopeFound(call, found.value.scope, now);
      LogOnce(s, e, Some(call));
      var s' := Log(s, e);
      if Store.Has(s.disk, Store.Key(Sig(env, i), found.value.scope), now) {
        SettleOnce(s', call, GrantAllow);
      } else {
        AskOnce(env, s', call, i, NormalGate(env.c, i), found, id);
      }
    }
  }

  lemma StartOnce(env: Env, s: State, i: HookInput, id: string)
    requires Once(s, None) && id !in s.pending
    ensures Once(Start(env, s, i, id), None)
  {
    var call, s' := |s.log|, Log(s, Called(i));
    CalledOnce(s, i);
    if !IsBypass(i) {
      AfterGateOnce(env, s', call, i, id);
    } else if s.repos != map[] && env.hasResolver {
      PauseOnce(s', call, AtPolicy(i));
    } else {
      AfterPolicyOnce(env, s', call, i, None, id);
    }
  }

  lemma SameButCache(s: State, t: State, open: Option<nat>)
    requires Once(s, open) && t.log == s.log && t.pending == s.pending && t.paused == s.paused
    ensures Once(t, open)
  {
    forall c: nat ensures Places(t, c) == Places(s, c) { assert Waits(t, c) <==> Waits(s, c); }
  }

  lemma ResolveOnce(env: Env, s: State, id: string, d: Decision, persist: bool, now: int, saved: bool)
    requires Once(s, None) && id in s.pending
    ensures Once(ResolveStep(env, s, id, d, persist, now, saved), None)
  {
    var p := s.pending[id];
    var f, e := Forget(s, id), Decided(p.call, id, d, persist);
    var s1 := Decide(s, id, d, persist);
    ForgetOnce(s, id);
    LogOnce(f, e, Some(p.call));
    SameButCache(Log(f, e), s1, Some(p.call));
    if Persists(env, p, d, persist) && saved {
      var op := Grant(env, p, now);
      var w := Wrote(op, Some(|s.log|));
      LogOnce(s1, w, Some(p.call));
      SameButCache(Log(s1, w), Write(s1, op, Some(|s.log|)), Some(p.call));
      SettleOnce(Write(s1, op, Some(|s.log|)), p.call, Answer(d));
    } else {
      SettleOnce(s1, p.call, Answer(d));
    }
  }

  lemma StepOnce(env: Env, s: State, t: Step)
    requires Once(s, None) && Carded(s) && Enabled(env, s, t)
    ensures Once(Next(env, s, t), None)
  {
    match t
    case Begin(i, id) =>
      FreshNotPending(s, id);
      StartOnce(env, s, i, id);
    case PolicyScope(call, scope, id) =>
      FreshNotPending(s, id);
      UnpauseOnce(s, call);
      AfterPolicyOnce(env, Unpause(s, call), call, s.paused[call].input, scope, id);
    case PersistScope(call, found, now, id) =>
      FreshNotPending(s, id);
      UnpauseOnce(s, call);
      AfterPersistOnce(env, Unpause(s, call), call, s.paused[call].input, found, now, id);
    case Resolve(id, d, persist, now, saved) =>
      if id in s.pending { ResolveOnce(env, s, id, d, persist, now, saved); }
    case Timeout(id) =>
      if id in s.pending { ForgetOnce(s, id); SettleOnce(Forget(s, id), s.pending[id].call, Refused(TimedOut)); }
    case CancelPending(id, origin) =>
      if id in s.pending { ForgetOnce(s, id); SettleOnce(Forget(s, id), s.pending[id].call, Refused(origin)); }
    case Drain => DrainOnce(s);
    case SetPolicies(_, _) => SameButCache(s, Next(env, s, t), None);
    case Elsewhere(op) =>
      LogOnce(s, Wrote(op, None), None);
      SameButCache(Log(s, Wrote(op, None)), Next(env, s, t), None);
  }

  lemma {:induction false} RunOnce(env: Env, disk0: seq<Store.Entry>, s: State, ts: seq<Step>)
    requires Inv(env, disk0, s) && Once(s, None) && ValidRun(env, s, ts)
    ensures Once(Run(env, s, ts), None)
    decreases |ts|
  {
    if ts != [] {
      assert Carded(s);
      StepKeeps(env, disk0, s, ts[0]);
      StepOnce(env, s, ts[0]);
      RunOnce(env, disk0, Next(env, s, ts[0]), ts[1..]);
    }
  }

  lemma InitialOnce(s: State)
    requires Initial(s)
    ensures Once(s, None)
  {
  }

  /**
   In every run each call is in exactly one place: settled once, suspended at one `await`, or waiting
   under one request id; and no two requests wait for the same call.
   */
  lemma SettledExactlyOnce(env: Env, s: State, ts: seq<Step>, call: nat)
    requires Initial(s) && ValidRun(env, s, ts)
    ensures Places(Run(env, s, ts), call) == if CalledAt(Run(env, s, ts).log, call) then 1 else 0
  {
    InitialOnce(s);
    RunOnce(env, s.disk, s, ts);
  }

  lemma {:induction false} SettlesAt(log: seq<Event>, k: nat, call: nat)
    requires k < |log| && SettlesIn(log[k], call) == 1
    ensures Settles(log, call) >= 1
  {
    if k < |log| - 1 { SettlesAt(log[..|log| - 1], k, call); }
  }

  /**
   Whatever is settled was called, and a call in bypass mode, or with a secret in a scanned field, is
   allowed only by the operator answering it.
   */
  lemma UnquietNeedsOperator(env: Env, s: State, ts: seq<Step>, k: nat)
    requires Initial(s) && ValidRun(env, s, ts)
    requires k < |Run(env, s, ts).log| && Run(env, s, ts).log[k].Settled?
    ensures var log := Run(env, s, ts).log;
      && CalledAt(log, log[k].call)
      && (log[k].result.behavior == Allowed && !Quiet(env, log[log[k].call].input) ==> ByOperator(log, k))
  {
    var log := Run(env, s, ts).log;
    SettlesAt(log, k, log[k].call);
    SettledExactlyOnce(env, s, ts, log[k].call);
    AllowsAreJustified(env, s, ts, k);
  }

  /** No identifier is shown on two cards. */
  predicate UniqueCards(log: seq<Event>) {
    forall a, b :: 0 <= a < |log| && 0 <= b < |log| && log[a].Card? && log[b].Card? && log[a].id == log[b].id ==> a == b
  }

  /** The first n events are those of the other log, and the rest holds at most one card, with this id. */
  predicate OneMoreCard(log: seq<Event>, log': seq<Event>, id: string) {
    && log <= log'
    && (forall k :: |log| <= k < |log'| && log'[k].Card? ==> log'[k].id == id)
    && (forall a, b :: |log| <= a < |log'| && |log| <= b < |log'| && log'[a].Card? && log'[b].Card? ==> a == b)
  }

  predicate NoNewCard(log: seq<Event>, log': seq<Event>) {
    log <= log' && forall k :: |log| <= k < |log'| ==> !log'[k].Card?
  }

  /** One event more, after some that show no card. */
  lemma OneMoreEvent(log: seq<Event>, mid: seq<Event>, e: Event, id: string)
    requires NoNewCard(log, mid) && (e.Card? ==> e.id == id)
    ensures OneMoreCard(log, mid + [e], id)
    ensures !e.Card? ==> NoNewCard(log, mid + [e])
  {
  }

  lemma GateOneMoreCard(env: Env, log: seq<Event>, s: State, call: nat, i: HookInput, id: string)
    requires NoNewCard(log, s.log)
    ensures OneMoreCard(log, AfterGate(env, s, call, i, id).log, id)
  {
    var gate := NormalGate(env.c, i);
    OneMoreEvent(log, s.log, Settled(call, Defer), id);
    OneMoreEvent(log, s.log, Settled(call, AutoAllow), id);
    if gate.Gated? { OneMoreEvent(log, s.log, Card(call, id, gate.trigger, gate.kinds, false), id); }
  }

  lemma PolicyOneMoreCard(env: Env, log: seq<Event>, s: State, call: nat, i: HookInput, scope: Option<string>, id: string)
    requires NoNewCard(log, s.log)
    ensures OneMoreCard(log, AfterPolicy(env, s, call, i, scope, id).log, id)
  {
    OneMoreEvent(log, s.log, AfterPolicy(env, s, call, i, scope, id).log[|s.log|], id);
  }

  lemma PersistOneMoreCard(env: Env, s: State, call: nat, i: HookInput, found: Option<Repo>, now: int, id: string)
    requires NormalGate(env.c, i).Gated?
    ensures OneMoreCard(s.log, AfterPersist(env, s, call, i, found, now, id).log, id)
  {
    var log' := AfterPersist(env, s, call, i, found, now, id).log;
    if found.None? {
      OneMoreEvent(s.log, s.log, log'[|s.log|], id);
    } else {
      var e := ScopeFound(call, found.value.scope, now);
      OneMoreEvent(s.log, s.log, e, id);
      OneMoreEvent(s.log, s.log + [e], log'[|s.log| + 1], id);
    }
  }

  lemma ResolveNoCard(env: Env, s: State, id: string, d: Decision, persist: bool, now: int, saved: bool)
    requires id in s.pending
    ensures NoNewCard(s.log, ResolveStep(env, s, id, d, persist, now, saved).log)
  {
  }

  lemma StepOneMoreCard(env: Env, s: State, t: Step)
    requires Enabled(env, s, t)
    ensures OneMoreCard(s.log, Next(env, s, t).log, if t.Begin? || t.PolicyScope? || t.PersistScope? then t.id else "")
  {
    match t
    case Begin(i, id) =>
      OneMoreEvent(s.log, s.log, Called(i), id);
      GateOneMoreCard(env, s.log, Log(s, Called(i)), |s.log|, i, id);
      PolicyOneMoreCard(env, s.log, Log(s, Called(i)), |s.log|, i, None, id);
    case PolicyScope(call, scope, id) =>
      PolicyOneMoreCard(env, s.log, Unpause(s, call), call, s.paused[call].input, scope, id);
    case PersistScope(call, found, now, id) =>
      PersistOneMoreCard(env, Unpause(s, call), call, s.paused[call].input, found, now, id);
    case Resolve(id, d, persist, now, saved) =>
      if id in s.pending { ResolveNoCard(env, s, id, d, persist, now, saved); }
    case _ =>
  }

  lemma StepUnique(env: Env, s: State, t: Step)
    requires Enabled(env, s, t) && UniqueCards(s.log)
    ensures UniqueCards(Next(env, s, t).log)
  {
    StepOneMoreCard(env, s, t);
    var log, log' := s.log, Next(env, s, t).log;
    forall a, b | 0 <= a < |log'| && 0 <= b < |log'| && log'[a].Card? && log'[b].Card? && log'[a].id == log'[b].id
      ensures a == b
    {
      assert forall k :: 0 <= k < |log| ==> log'[k] == log[k];
    }
  }

  lemma {:induction false} RunUnique(env: Env, s: State, ts: seq<Step>)
    requires ValidRun(env, s, ts) && UniqueCards(s.log)
    ensures UniqueCards(Run(env, s, ts).log)
    decreases |ts|
  {
    if ts != [] {
      StepUnique(env, s, ts[0]);
      RunUnique(env, Next(env, s, ts[0]), ts[1..]);
    }
  }

  lemma SameCard(log: seq<Event>, a: nat, b: nat, id: string)
    requires UniqueCards(log) && HasCard(log, a, id) && HasCard(log, b, id)
    ensures a == b
  {
    var i, j :| CardAt(log, i, a, id) && CardAt(log, j, b, id);
    assert i == j;
  }

  lemma WaitingNotSettled(s: State, call: nat)
    requires Once(s, None) && Waits(s, call)
    ensures Settles(s.log, call) == 0
  {
    assert Places(s, call) <= 1;
  }

  lemma SettledNotWaiting(s: State, id: string, call: nat)
    requires Once(s, None) && Carded(s) && UniqueCards(s.log)
    requires HasCard(s.log, call, id) && Settles(s.log, call) >= 1
    ensures id !in s.pending
  {
    assert !Waits(s, call) by { if Waits(s, call) { WaitingNotSettled(s, call); } }
    if id in s.pending { SameCard(s.log, s.pending[id].call, call, id); }
  }

  /** Whatever settles a request first wins: later answers, timeouts and cancels for it change nothing. */
  lemma LateAnswersDoNothing(env: Env, s: State, ts: seq<Step>, id: string, call: nat, t: Step)
    requires Initial(s) && ValidRun(env, s, ts)
    requires HasCard(Run(env, s, ts).log, call, id) && Settles(Run(env, s, ts).log, call) >= 1
    requires (t.Resolve? || t.Timeout? || t.CancelPending?) && t.id == id
    ensures Next(env, Run(env, s, ts), t) == Run(env, s, ts)
  {
    InitialOnce(s);
    RunKeeps(env, s.disk, s, ts);
    RunOnce(env, s.disk, s, ts);
    RunUnique(env, s, ts);
    SettledNotWaiting(Run(env, s, ts), id, call);
  }

  /**
   A drain leaves no request waiting and nothing remembered: every call not suspended is settled, exactly
   once, and the drain refused exactly the calls that were waiting, with shutdown as the origin.
   */
  lemma DrainSettlesAll(env: Env, s: State, ts: seq<Step>, call: nat)
    requires Initial(s) && ValidRun(env, s, ts)
    requires CalledAt(Run(env, s, ts).log, call)
    ensures var r, d := Run(env, s, ts), DrainStep(Run(env, s, ts));
      && d.pending == map[] && d.cache == {} && (call in d.paused || Settles(d.log, call) == 1)
      && |d.log| == |r.log| + 1 && d.log[|r.log|].Drained? && d.log[|r.log|].result == Refused(Shutdown)
      && (call in d.log[|r.log|].calls <==> Waits(r, call))
  {
    var r := Run(env, s, ts);
    InitialOnce(s);
    RunOnce(env, s.disk, s, ts);
    DrainOnce(r);
    var d := DrainStep(r);
    assert call in PendingCalls(r) <==> Waits(r, call);
    assert CalledAt(d.log, call) && !Waits(d, call);
    assert Places(d, call) == 1;
  }
}
