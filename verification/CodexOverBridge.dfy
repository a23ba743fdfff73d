/**
 The codex layer running over the approval bridge, as one system.

 An accepted codex request calls the bridge, which may serve other callers too; when the bridge settles
 the call, the layer's continuation becomes due; when the codex process exits, the layer cancels its
 cards at the bridge.  Main results, over every run of the whole system: `LayersRun` (each layer does a
 run of its own, so all that is proved of the layers holds here), `ToldIsOutcome` (codex reads exactly
 the bridge's outcome of its call) and `GoAheadTraced` (every go-ahead codex reads is the operator's
 decision on that very card, or a session grant since the last drain).
 */
module CodexOverBridge {
  import opened Options
  import opened Json
  import opened Gate
  import opened CodexRequests
  import Bridge = ApprovalBridge
  import Provenance = BridgeProvenance
  import Once = BridgeOnce
  import Codex = CodexBridge

  /** What an accepted codex request asked, and the bridge call that serves it. */
  datatype Asked = Asked(session: string, params: Json, at: nat)

  datatype System = System(bridge: Bridge.State, codex: Codex.State, asked: map<nat, Asked>)

  datatype Step =
    | Request(id: Id, kind: RequestKind, session: string, params: Json, request: string)
    | AtTheBridge(t: Bridge.Step)
    | Finish(call: nat, sendOk: bool)
    | Exit(order: seq<string>)

  // ---------------------------------------------------------------------------------------------
  // Steps.
  // ---------------------------------------------------------------------------------------------

  function ResultIn(e: Bridge.Event, call: nat): Option<Bridge.Result> {
    match e
    case Settled(c, r) => if c == call then Some(r) else None
    case Drained(calls, r) => if call in calls then Some(r) else None
    case _ => None
  }

  /** What the bridge's promise for a call was first settled with. */
  function Outcome(log: seq<Bridge.Event>, call: nat): Option<Bridge.Result> {
    if log == [] then None
    else
      var earlier := Outcome(log[..|log| - 1], call);
      if earlier.Some? then earlier else ResultIn(log[|log| - 1], call)
  }

  /** The card just shown, if any. */
  function LastCard(log: seq<Bridge.Event>): Option<string> {
    if log != [] && log[|log| - 1].Card? then Some(log[|log| - 1].id) else None
  }

  function Promised(w: Codex.Work, call: nat, log: seq<Bridge.Event>, asked: map<nat, Asked>): Codex.Work {
    if w.AtBridge? && call in asked && Outcome(log, asked[call].at).Some?
    then Codex.Due(Outcome(log, asked[call].at).value)
    else w
  }

  /** Whatever the bridge has settled becomes due at the codex layer. */
  function Absorb(c: Codex.State, log: seq<Bridge.Event>, asked: map<nat, Asked>): Codex.State {
    c.(work := map call | call in c.work :: Promised(c.work[call], call, log, asked))
  }

  function CancelAll(env: Bridge.Env, b: Bridge.State, order: seq<string>): Bridge.State
    decreases |order|
  {
    if order == [] then b
    else CancelAll(env, Bridge.Next(env, b, Bridge.CancelPending(order[0], Bridge.ChildExit)), order[1..])
  }

  predicate Enabled(env: Bridge.Env, s: System, t: Step) {
    match t
    case Request(id, _, _, _, request) => Bridge.FreshId(s.bridge.log, request)
    case AtTheBridge(t) => Bridge.Enabled(env, s.bridge, t)
    case Finish(call, sendOk) => Codex.Enabled(s.codex, Codex.Finish(call, sendOk))
    case Exit(order) => (set r | r in order) == Codex.Requests(s.codex)
  }

  function Next(env: Bridge.Env, s: System, t: Step): System
    requires Enabled(env, s, t)
  {
    match t
    case Request(id, kind, session, params, request) =>
      if KeyOf(id) in s.codex.owner then s
      else
        var b := Bridge.Start(env, s.bridge, CodexInput(session, kind, params), request);
        System(b, Codex.AcceptStep(s.codex, id, kind, LastCard(b.log)),
               s.asked[|s.codex.log| := Asked(session, params, |s.bridge.log|)])
    case AtTheBridge(t) =>
      var b := Bridge.Next(env, s.bridge, t);
      s.(bridge := b, codex := Absorb(s.codex, b.log, s.asked))
    case Finish(call, sendOk) => s.(codex := Codex.FinishStep(s.codex, call, sendOk))
    case Exit(order) =>
      if s.codex.suppressed then s
      else s.(bridge := CancelAll(env, s.bridge, order), codex := Codex.ExitStep(s.codex))
  }

  predicate ValidRun(env: Bridge.Env, s: System, ts: seq<Step>)
    decreases |ts|
  {
    ts != [] ==> Enabled(env, s, ts[0]) && ValidRun(env, Next(env, s, ts[0]), ts[1..])
  }

  function Run(env: Bridge.Env, s: System, ts: seq<Step>): System
    requires ValidRun(env, s, ts)
    decreases |ts|
  {
    if ts == [] then s else Run(env, Next(env, s, ts[0]), ts[1..])
  }

  /** Both layers at their start. */
  function Fresh(b: Bridge.State): System {
    System(b, Codex.Start, map[])
  }

  // ---------------------------------------------------------------------------------------------
  // Outcomes.
  // ---------------------------------------------------------------------------------------------

  lemma OutcomeAppend(log: seq<Bridge.Event>, e: Bridge.Event, call: nat)
    ensures Outcome(log + [e], call) == if Outcome(log, call).Some? then Outcome(log, call) else ResultIn(e, call)
  {
    assert (log + [e])[..|log|] == log;
  }

  lemma {:induction false} OutcomeStays(log: seq<Bridge.Event>, log': seq<Bridge.Event>, call: nat)
    requires log <= log' && Outcome(log, call).Some?
    ensures Outcome(log', call) == Outcome(log, call)
    decreases |log'|
  {
    if |log'| > |log| {
      OutcomeStays(log, log'[..|log'| - 1], call);
    } else {
      assert log' == log;
    }
  }

  lemma {:induction false} OutcomeIffSettles(log: seq<Bridge.Event>, call: nat)
    ensures Outcome(log, call).Some? <==> Once.Settles(log, call) >= 1
  {
    if log != [] { OutcomeIffSettles(log[..|log| - 1], call); }
  }

  lemma {:induction false} OutcomeAt(log: seq<Bridge.Event>, call: nat) returns (k: nat)
    requires Outcome(log, call).Some?
    ensures k < |log| && ResultIn(log[k], call) == Outcome(log, call)
  {
    var n := |log| - 1;
    if Outcome(log[..n], call).Some? { k := OutcomeAt(log[..n], call); } else { k := n; }
  }

  // ---------------------------------------------------------------------------------------------
  // What the bridge still does to a call that is neither new nor suspended.
  // ---------------------------------------------------------------------------------------------

  /** What answers a card: the operator, or a refusal. */
  predicate CardResult(r: Bridge.Result) {
    (exists d :: r == Bridge.Answer(d)) || (exists o :: r == Bridge.Refused(o))
  }

  /** The event shows no card for the call, and settles it only the way a card is answered. */
  predicate LateEvent(e: Bridge.Event, call: nat) {
    (e.Card? ==> e.call != call) && (e.Settled? && e.call == call ==> CardResult(e.result))
  }

  predicate Later(b: Bridge.State, b': Bridge.State, call: nat) {
    && b.log <= b'.log && call !in b'.paused
    && forall k :: |b.log| <= k < |b'.log| ==> LateEvent(b'.log[k], call)
  }

  lemma LaterThen(b: Bridge.State, m: Bridge.State, b': Bridge.State, call: nat)
    requires Later(b, m, call) && Later(m, b', call)
    ensures Later(b, b', call)
  {
    forall k | |b.log| <= k < |b'.log| ensures LateEvent(b'.log[k], call) {
      if k < |m.log| { assert b'.log[k] == m.log[k]; }
    }
  }

  lemma LogLater(b: Bridge.State, b': Bridge.State, e: Bridge.Event, call: nat)
    requires b'.log == b.log + [e] && LateEvent(e, call) && call !in b'.paused
    ensures Later(b, b', call)
  {
  }

  lemma PolicyLater(env: Bridge.Env, b: Bridge.State, c: nat, i: HookInput, scope: Option<string>, id: string, call: nat)
    requires c != call && call !in b.paused
    ensures Later(b, Bridge.AfterPolicy(env, b, c, i, scope, id), call)
  {
    var b' := Bridge.AfterPolicy(env, b, c, i, scope, id);
    LogLater(b, b', b'.log[|b.log|], call);
  }

  lemma GateLater(env: Bridge.Env, b: Bridge.State, c: nat, i: HookInput, id: string, call: nat)
    requires c != call && call !in b.paused
    ensures Later(b, Bridge.AfterGate(env, b, c, i, id), call)
  {
    var b' := Bridge.AfterGate(env, b, c, i, id);
    if b'.log != b.log { LogLater(b, b', b'.log[|b.log|], call); }
  }

  lemma PersistLater(
    env: Bridge.Env, b: Bridge.State, c: nat, i: HookInput, found: Option<Bridge.Repo>, now: int, id: string, call: nat)
    requires c != call && call !in b.paused && NormalGate(env.c, i).Gated?
    ensures Later(b, Bridge.AfterPersist(env, b, c, i, found, now, id), call)
  {
    var b' := Bridge.AfterPersist(env, b, c, i, found, now, id);
    if found.None? {
      LogLater(b, b', b'.log[|b.log|], call);
    } else {
      var m := Bridge.Log(b, Bridge.ScopeFound(c, found.value.scope, now));
      LogLater(b, m, m.log[|b.log|], call);
      LogLater(m, b', b'.log[|m.log|], call);
      LaterThen(b, m, b', call);
    }
  }

  lemma StartLater(env: Bridge.Env, b: Bridge.State, i: HookInput, id: string, call: nat)
    requires call != |b.log| && call !in b.paused
    ensures Later(b, Bridge.Start(env, b, i, id), call)
  {
    var c, m := |b.log|, Bridge.Log(b, Bridge.Called(i));
    LogLater(b, m, Bridge.Called(i), call);
    if !IsBypass(i) {
      GateLater(env, m, c, i, id, call);
      LaterThen(b, m, Bridge.AfterGate(env, m, c, i, id), call);
    } else if !(b.repos != map[] && env.hasResolver) {
      PolicyLater(env, m, c, i, None, id, call);
      LaterThen(b, m, Bridge.AfterPolicy(env, m, c, i, None, id), call);
    }
  }

  lemma ResolveLater(
    env: Bridge.Env, b: Bridge.State, id: string, d: Bridge.Decision, persist: bool, now: int, saved: bool, call: nat)
    requires id in b.pending && call !in b.paused
    ensures Later(b, Bridge.ResolveStep(env, b, id, d, persist, now, saved), call)
  {
    var b' := Bridge.ResolveStep(env, b, id, d, persist, now, saved);
    forall k | |b.log| <= k < |b'.log| ensures LateEvent(b'.log[k], call) {
      assert b'.log[k].Settled? ==> b'.log[k].result == Bridge.Answer(d);
    }
  }

  lemma RefuseLater(b: Bridge.State, id: string, origin: Bridge.Origin, call: nat)
    requires id in b.pending && call !in b.paused
    ensures Later(b, Bridge.Settle(Bridge.Forget(b, id), b.pending[id].call, Bridge.Refused(origin)), call)
  {
    var e := Bridge.Settled(b.pending[id].call, Bridge.Refused(origin));
    LogLater(b, Bridge.Settle(Bridge.Forget(b, id), b.pending[id].call, Bridge.Refused(origin)), e, call);
  }

  lemma StepLater(env: Bridge.Env, b: Bridge.State, t: Bridge.Step, call: nat)
    requires Bridge.Enabled(env, b, t) && (t.Begin? ==> call != |b.log|) && call !in b.paused
    ensures Later(b, Bridge.Next(env, b, t), call)
  {
    match t
    case Begin(i, id) => StartLater(env, b, i, id, call);
    case PolicyScope(c, scope, id) => PolicyLater(env, Bridge.Unpause(b, c), c, b.paused[c].input, scope, id, call);
    case PersistScope(c, found, now, id) =>
      PersistLater(env, Bridge.Unpause(b, c), c, b.paused[c].input, found, now, id, call);
    case Resolve(id, d, persist, now, saved) =>
      if id in b.pending { ResolveLater(env, b, id, d, persist, now, saved, call); }
    case Timeout(id) => if id in b.pending { RefuseLater(b, id, Bridge.TimedOut, call); }
    case CancelPending(id, origin) => if id in b.pending { RefuseLater(b, id, origin, call); }
    case Drain => LogLater(b, Bridge.DrainStep(b), Bridge.Drained(Bridge.PendingCalls(b), Bridge.Refused(Bridge.Shutdown)), call);
    case SetPolicies(_, _) =>
    case Elsewhere(op) => LogLater(b, Bridge.Write(b, op, None), Bridge.Wrote(op, None), call);
  }

  // ---------------------------------------------------------------------------------------------
  // The bridge's own invariants, bundled.
  // ---------------------------------------------------------------------------------------------

  ghost predicate BridgeOk(env: Bridge.Env, disk0: seq<Bridge.Store.Entry>, b: Bridge.State) {
    Provenance.Inv(env, disk0, b) && Once.Once(b, None) && CardsCalled(b.log)
  }

  predicate CardsCalled(log: seq<Bridge.Event>) {
    forall k :: 0 <= k < |log| && log[k].Card? ==> log[k].call < |log|
  }

  lemma StepCardsCalled(env: Bridge.Env, disk0: seq<Bridge.Store.Entry>, b: Bridge.State, t: Bridge.Step)
    requires BridgeOk(env, disk0, b) && Bridge.Enabled(env, b, t)
    ensures CardsCalled(Bridge.Next(env, b, t).log)
  {
    var b' := Bridge.Next(env, b, t);
    StepExtends(env, b, t);
    forall k | 0 <= k < |b'.log| && b'.log[k].Card? ensures b'.log[k].call < |b'.log| {
      var n := b'.log[k].call;
      if k < |b.log| {
        assert b.log[k] == b'.log[k];
      } else if n != |b.log| && n !in b.paused {
        StepLater(env, b, t, n);
      } else if n in b.paused {
        assert Provenance.PausedOk(env, b.log, n, b.paused[n]);
      }
    }
  }

  lemma BridgeOkStep(env: Bridge.Env, disk0: seq<Bridge.Store.Entry>, b: Bridge.State, t: Bridge.Step)
    requires BridgeOk(env, disk0, b) && Bridge.Enabled(env, b, t)
    ensures BridgeOk(env, disk0, Bridge.Next(env, b, t))
  {
    assert Once.Carded(b);
    Provenance.StepKeeps(env, disk0, b, t);
    Once.StepOnce(env, b, t);
    StepCardsCalled(env, disk0, b, t);
  }

  // ---------------------------------------------------------------------------------------------
  // How the layers hang together.
  // ---------------------------------------------------------------------------------------------

  /** The bridge call behind an accepted request: a session hit, or a call with one card, answered on it or not yet. */
  ghost predicate Linked(b: Bridge.State, kind: RequestKind, card: Option<string>, a: Asked) {
    && Provenance.CalledAt(b.log, a.at) && b.log[a.at].input == CodexInput(a.session, kind, a.params)
    && a.at !in b.paused
    && match card
       case None =>
         && a.at + 1 < |b.log| && b.log[a.at + 1] == Bridge.Settled(a.at, Bridge.AutoAllow)
         && Outcome(b.log, a.at) == Some(Bridge.AutoAllow)
       case Some(r) =>
         && Provenance.HasCard(b.log, a.at, r)
         && (forall k :: 0 <= k < |b.log| && b.log[k].Card? && b.log[k].call == a.at ==> b.log[k].id == r)
         && (forall k :: 0 <= k < |b.log| && b.log[k].Settled? && b.log[k].call == a.at ==> CardResult(b.log[k].result))
  }

  lemma {:induction false} CardsStay(log: seq<Bridge.Event>, log': seq<Bridge.Event>, call: nat, id: string)
    requires log <= log' && Provenance.HasCard(log, call, id)
    ensures Provenance.HasCard(log', call, id)
  {
    var k :| Provenance.CardAt(log, k, call, id);
    assert Provenance.CardAt(log', k, call, id);
  }

  lemma LinkedStays(b: Bridge.State, b': Bridge.State, kind: RequestKind, card: Option<string>, a: Asked)
    requires Linked(b, kind, card, a) && Later(b, b', a.at)
    ensures Linked(b', kind, card, a)
  {
    assert forall k :: 0 <= k < |b.log| ==> b'.log[k] == b.log[k];
    if card.None? {
      OutcomeStays(b.log, b'.log, a.at);
    } else {
      CardsStay(b.log, b'.log, a.at, card.value);
      forall k | 0 <= k < |b'.log| && b'.log[k].Card? && b'.log[k].call == a.at ensures b'.log[k].id == card.value {
        assert k >= |b.log| ==> LateEvent(b'.log[k], a.at);
      }
      forall k | 0 <= k < |b'.log| && b'.log[k].Settled? && b'.log[k].call == a.at ensures CardResult(b'.log[k].result) {
        assert k >= |b.log| ==> LateEvent(b'.log[k], a.at);
      }
    }
  }

  /** A request at the bridge has no outcome yet, and one that is due carries the outcome of its call. */
  predicate WorkTold(log: seq<Bridge.Event>, w: Codex.Work, a: Asked) {
    match w
    case AtBridge(_) => Outcome(log, a.at) == None
    case Due(r) => Outcome(log, a.at) == Some(r)
  }

  /** A response tells the outcome of its request's call, under the request's id. */
  predicate Tells(log: seq<Bridge.Event>, clog: seq<Codex.Event>, asked: map<nat, Asked>, n: nat)
    requires n < |clog|
  {
    clog[n].Responded? ==>
      var c := clog[n].call;
      && Codex.AcceptedAt(clog, c) && c in asked && clog[n].id == clog[c].id
      && Outcome(log, asked[c].at).Some?
      && clog[n].body == ResultBody(clog[c].kind, DecisionOf(Outcome(log, asked[c].at).value))
  }

  ghost predicate LinksOk(s: System) {
    forall c: nat :: Codex.AcceptedAt(s.codex.log, c) ==>
      c in s.asked && Linked(s.bridge, s.codex.log[c].kind, s.codex.log[c].card, s.asked[c])
  }

  predicate WorkOk(s: System) {
    forall c :: c in s.codex.work ==> c in s.asked && WorkTold(s.bridge.log, s.codex.work[c], s.asked[c])
  }

  predicate TellsOk(s: System) {
    forall n :: 0 <= n < |s.codex.log| ==> Tells(s.bridge.log, s.codex.log, s.asked, n)
  }

  ghost predicate Inv(env: Bridge.Env, disk0: seq<Bridge.Store.Entry>, s: System) {
    BridgeOk(env, disk0, s.bridge) && Codex.Inv(s.codex) && LinksOk(s) && WorkOk(s) && TellsOk(s)
  }

  /** A call with a card and no outcome waits under that card. */
  lemma WaitsUnderCard(b: Bridge.State, kind: RequestKind, r: string, a: Asked)
    requires Once.Once(b, None) && Once.Carded(b) && Linked(b, kind, Some(r), a) && Outcome(b.log, a.at) == None
    ensures r in b.pending && b.pending[r].call == a.at
  {
    UnsettledWaits(b, a.at);
    var id :| id in b.pending && b.pending[id].call == a.at;
    assert Provenance.HasCard(b.log, a.at, id);
    var k: nat :| Provenance.CardAt(b.log, k, a.at, id);
    assert b.log[k].id == r;
  }

  lemma UnsettledWaits(b: Bridge.State, call: nat)
    requires Once.Once(b, None) && Provenance.CalledAt(b.log, call) && call !in b.paused && Outcome(b.log, call) == None
    ensures Once.Waits(b, call)
  {
    OutcomeIffSettles(b.log, call);
    assert Once.Places(b, call) == 1;
  }

  /** What waits has no outcome. */
  lemma WaitingHasNone(b: Bridge.State, r: string)
    requires Once.Once(b, None) && r in b.pending
    ensures Outcome(b.log, b.pending[r].call) == None
  {
    assert Once.Waits(b, b.pending[r].call);
    Once.WaitingNotSettled(b, b.pending[r].call);
    OutcomeIffSettles(b.log, b.pending[r].call);
  }

  // ---------------------------------------------------------------------------------------------
  // Each step keeps it.
  // ---------------------------------------------------------------------------------------------

  lemma LinksStay(s: System, b': Bridge.State, c: nat)
    requires LinksOk(s) && Codex.AcceptedAt(s.codex.log, c)
    requires Later(s.bridge, b', s.asked[c].at)
    ensures Linked(b', s.codex.log[c].kind, s.codex.log[c].card, s.asked[c])
  {
    LinkedStays(s.bridge, b', s.codex.log[c].kind, s.codex.log[c].card, s.asked[c]);
  }

  lemma TellsStay(s: System, log': seq<Bridge.Event>)
    requires TellsOk(s) && s.bridge.log <= log'
    ensures forall n :: 0 <= n < |s.codex.log| ==> Tells(log', s.codex.log, s.asked, n)
  {
    forall n | 0 <= n < |s.codex.log| ensures Tells(log', s.codex.log, s.asked, n) {
      assert Tells(s.bridge.log, s.codex.log, s.asked, n);
      if s.codex.log[n].Responded? { OutcomeStays(s.bridge.log, log', s.asked[s.codex.log[n].call].at); }
    }
  }

  lemma AbsorbKeeps(c: Codex.State, log: seq<Bridge.Event>, asked: map<nat, Asked>)
    requires Codex.Inv(c)
    ensures Codex.Inv(Absorb(c, log, asked))
  {
    var c' := Absorb(c, log, asked);
    assert c'.work.Keys == c.work.Keys;
    forall k: nat | k < |c'.log| ensures Codex.CardOk(c', k) { assert Codex.CardOk(c, k); }
  }

  lemma AbsorbTold(s: System, log': seq<Bridge.Event>)
    requires WorkOk(s) && s.bridge.log <= log'
    ensures forall c :: c in s.codex.work ==> WorkTold(log', Promised(s.codex.work[c], c, log', s.asked), s.asked[c])
  {
    forall c | c in s.codex.work ensures WorkTold(log', Promised(s.codex.work[c], c, log', s.asked), s.asked[c]) {
      assert WorkTold(s.bridge.log, s.codex.work[c], s.asked[c]);
      if s.codex.work[c].Due? { OutcomeStays(s.bridge.log, log', s.asked[c].at); }
    }
  }

  lemma BridgeStepKeeps(env: Bridge.Env, disk0: seq<Bridge.Store.Entry>, s: System, t: Bridge.Step)
    requires Inv(env, disk0, s) && Enabled(env, s, AtTheBridge(t))
    ensures Inv(env, disk0, Next(env, s, AtTheBridge(t)))
  {
    var b' := Bridge.Next(env, s.bridge, t);
    BridgeOkStep(env, disk0, s.bridge, t);
    AbsorbKeeps(s.codex, b'.log, s.asked);
    StepExtends(env, s.bridge, t);
    AbsorbTold(s, b'.log);
    TellsStay(s, b'.log);
    forall c: nat | Codex.AcceptedAt(s.codex.log, c)
      ensures Linked(b', s.codex.log[c].kind, s.codex.log[c].card, s.asked[c])
    {
      StepLater(env, s.bridge, t, s.asked[c].at);
      LinksStay(s, b', c);
    }
  }

  lemma StepExtends(env: Bridge.Env, b: Bridge.State, t: Bridge.Step)
    requires Bridge.Enabled(env, b, t)
    ensures b.log <= Bridge.Next(env, b, t).log
  {
    Once.StepOneMoreCard(env, b, t);
  }

  /** One call more, which is a session hit or waits under a new card. */
  predicate HitOrCard(b: Bridge.State, b': Bridge.State, i: HookInput, request: string) {
    && |b'.log| == |b.log| + 2 && b'.log == b.log + [Bridge.Called(i), b'.log[|b.log| + 1]] && b'.paused == b.paused
    && var e := b'.log[|b.log| + 1];
       || e == Bridge.Settled(|b.log|, Bridge.AutoAllow)
       || (e.Card? && e.call == |b.log| && e.id == request)
  }

  lemma RequestShape(env: Bridge.Env, b: Bridge.State, session: string, kind: RequestKind, params: Json, request: string)
    ensures var i := CodexInput(session, kind, params);
      HitOrCard(b, Bridge.Start(env, b, i, request), i, request)
  {
    CodexRequestIsHitOrCard(env, b, session, kind, params, request);
  }

  /** A new codex call gives its own outcome, if it is a session hit, and none to earlier calls. */
  lemma ShapeOutcome(b: Bridge.State, b': Bridge.State, i: HookInput, request: string, call: nat)
    requires HitOrCard(b, b', i, request) && (call == |b.log| ==> Outcome(b.log, call) == None)
    ensures Outcome(b'.log, call) ==
      if call == |b.log| then (if LastCard(b'.log).None? then Some(Bridge.AutoAllow) else None) else Outcome(b.log, call)
  {
    var e := b'.log[|b.log| + 1];
    assert b'.log == b.log + [Bridge.Called(i)] + [e];
    OutcomeAppend(b.log, Bridge.Called(i), call);
    OutcomeAppend(b.log + [Bridge.Called(i)], e, call);
  }

  /** What the call of a new codex request becomes at the bridge. */
  lemma RequestLinked(b: Bridge.State, b': Bridge.State, session: string, kind: RequestKind, params: Json, request: string)
    requires HitOrCard(b, b', CodexInput(session, kind, params), request) && |b.log| !in b.paused
    requires forall k :: 0 <= k < |b.log| && (b.log[k].Card? || b.log[k].Settled?) ==> b.log[k].call < |b.log|
    requires Outcome(b.log, |b.log|) == None
    ensures Linked(b', kind, LastCard(b'.log), Asked(session, params, |b.log|))
  {
    var a, e := Asked(session, params, |b.log|), b'.log[|b.log| + 1];
    ShapeOutcome(b, b', CodexInput(session, kind, params), request, |b.log|);
    if e.Card? { CardLinked(b, b', kind, a, e); } else { HitLinked(b, b', kind, a); }
  }

  lemma HitLinked(b: Bridge.State, b': Bridge.State, kind: RequestKind, a: Asked)
    requires a.at == |b.log| && a.at !in b'.paused && Outcome(b'.log, a.at) == Some(Bridge.AutoAllow)
    requires b'.log == b.log + [Bridge.Called(CodexInput(a.session, kind, a.params)), Bridge.Settled(a.at, Bridge.AutoAllow)]
    ensures Linked(b', kind, None, a)
  {
  }

  lemma CardLinked(b: Bridge.State, b': Bridge.State, kind: RequestKind, a: Asked, e: Bridge.Event)
    requires a.at == |b.log| && a.at !in b'.paused && e.Card? && e.call == a.at
    requires b'.log == b.log + [Bridge.Called(CodexInput(a.session, kind, a.params)), e]
    requires forall k :: 0 <= k < |b.log| && (b.log[k].Card? || b.log[k].Settled?) ==> b.log[k].call < |b.log|
    ensures Linked(b', kind, Some(e.id), a)
  {
    assert Provenance.CardAt(b'.log, a.at + 1, a.at, e.id);
    assert forall k :: 0 <= k < |b.log| ==> b'.log[k] == b.log[k];
  }

  lemma PastCalls(env: Bridge.Env, disk0: seq<Bridge.Store.Entry>, b: Bridge.State)
    requires BridgeOk(env, disk0, b)
    ensures forall call :: call in b.paused ==> call < |b.log|
    ensures forall k :: 0 <= k < |b.log| && (b.log[k].Card? || b.log[k].Settled?) ==> b.log[k].call < |b.log|
    ensures Outcome(b.log, |b.log|) == None
  {
    forall call | call in b.paused ensures call < |b.log| {
      assert Provenance.PausedOk(env, b.log, call, b.paused[call]);
    }
    forall k | 0 <= k < |b.log| && b.log[k].Settled? ensures b.log[k].call < |b.log| {
      Once.SettlesAt(b.log, k, b.log[k].call);
      assert Once.Places(b, b.log[k].call) >= 1;
    }
    OutcomeIffSettles(b.log, |b.log|);
    assert Once.Places(b, |b.log|) == 0;
  }

  /** Cards of the codex layer were shown by the bridge, so a fresh bridge id is fresh to the layer. */
  lemma FreshToCodex(s: System, request: string)
    requires LinksOk(s) && Bridge.FreshId(s.bridge.log, request)
    ensures Codex.FreshRequest(s.codex.log, request)
  {
    forall c: nat | c < |s.codex.log| ensures !Codex.CardOf(s.codex.log, c, request) {
      if Codex.AcceptedAt(s.codex.log, c) && s.codex.log[c].card.Some? {
        assert Linked(s.bridge, s.codex.log[c].kind, s.codex.log[c].card, s.asked[c]);
        var k: nat :| Provenance.CardAt(s.bridge.log, k, s.asked[c].at, s.codex.log[c].card.value);
        assert s.bridge.log[k].id != request;
      }
    }
  }

  lemma TellsGrow(
    log: seq<Bridge.Event>, clog: seq<Codex.Event>, clog': seq<Codex.Event>, asked: map<nat, Asked>, asked': map<nat, Asked>, n: nat)
    requires n < |clog| && clog <= clog' && Tells(log, clog, asked, n)
    requires forall c :: c in asked && c < |clog| ==> c in asked' && asked'[c] == asked[c]
    ensures Tells(log, clog', asked', n)
  {
  }

  lemma RequestKeepsLinks(
    env: Bridge.Env, disk0: seq<Bridge.Store.Entry>, s: System, id: Id, kind: RequestKind, session: string, params: Json, request: string)
    requires BridgeOk(env, disk0, s.bridge) && LinksOk(s) && KeyOf(id) !in s.codex.owner
    requires Enabled(env, s, Request(id, kind, session, params, request))
    ensures LinksOk(Next(env, s, Request(id, kind, session, params, request)))
  {
    var i := CodexInput(session, kind, params);
    var b' := Bridge.Start(env, s.bridge, i, request);
    PastCalls(env, disk0, s.bridge);
    RequestShape(env, s.bridge, session, kind, params, request);
    RequestLinked(s.bridge, b', session, kind, params, request);
    forall c: nat | Codex.AcceptedAt(s.codex.log, c) ensures Later(s.bridge, b', s.asked[c].at) {
      assert Linked(s.bridge, s.codex.log[c].kind, s.codex.log[c].card, s.asked[c]);
      StartLater(env, s.bridge, i, request, s.asked[c].at);
    }
    OneMoreLink(s, b', id, kind, LastCard(b'.log), Asked(session, params, |s.bridge.log|));
  }

  lemma OneMoreLink(s: System, b': Bridge.State, id: Id, kind: RequestKind, card: Option<string>, a: Asked)
    requires LinksOk(s) && Linked(b', kind, card, a) && KeyOf(id) !in s.codex.owner
    requires forall c: nat :: Codex.AcceptedAt(s.codex.log, c) ==> Later(s.bridge, b', s.asked[c].at)
    ensures LinksOk(System(b', Codex.AcceptStep(s.codex, id, kind, card), s.asked[|s.codex.log| := a]))
  {
    var log', asked' := s.codex.log + [Codex.Accepted(id, kind, card)], s.asked[|s.codex.log| := a];
    Codex.AcceptExtends(s.codex.log, Codex.Accepted(id, kind, card));
    forall c: nat | Codex.AcceptedAt(log', c) ensures c in asked' && Linked(b', log'[c].kind, log'[c].card, asked'[c]) {
      if c < |s.codex.log| { LinksStay(s, b', c); }
    }
  }

  lemma RequestKeepsWork(
    env: Bridge.Env, disk0: seq<Bridge.Store.Entry>, s: System, id: Id, kind: RequestKind, session: string, params: Json, request: string)
    requires BridgeOk(env, disk0, s.bridge) && LinksOk(s) && WorkOk(s) && Codex.WorkOk(s.codex) && KeyOf(id) !in s.codex.owner
    requires Enabled(env, s, Request(id, kind, session, params, request))
    ensures WorkOk(Next(env, s, Request(id, kind, session, params, request)))
  {
    var s' := Next(env, s, Request(id, kind, session, params, request));
    PastCalls(env, disk0, s.bridge);
    RequestShape(env, s.bridge, session, kind, params, request);
    forall c | c in s'.codex.work ensures c in s'.asked && WorkTold(s'.bridge.log, s'.codex.work[c], s'.asked[c]) {
      ShapeOutcome(s.bridge, s'.bridge, CodexInput(session, kind, params), request, s'.asked[c].at);
      if c != |s.codex.log| {
        assert Codex.AcceptedAt(s.codex.log, c);
        assert Linked(s.bridge, s.codex.log[c].kind, s.codex.log[c].card, s.asked[c]);
        assert WorkTold(s.bridge.log, s.codex.work[c], s.asked[c]);
      }
    }
  }

  lemma RequestKeepsLayers(
    env: Bridge.Env, disk0: seq<Bridge.Store.Entry>, s: System, id: Id, kind: RequestKind, session: string, params: Json, request: string)
    requires BridgeOk(env, disk0, s.bridge) && Codex.Inv(s.codex) && LinksOk(s) && KeyOf(id) !in s.codex.owner
    requires Enabled(env, s, Request(id, kind, session, params, request))
    ensures var s' := Next(env, s, Request(id, kind, session, params, request));
      BridgeOk(env, disk0, s'.bridge) && Codex.Inv(s'.codex) && s.bridge.log <= s'.bridge.log
  {
    var i := CodexInput(session, kind, params);
    BridgeOkStep(env, disk0, s.bridge, Bridge.Begin(i, request));
    RequestShape(env, s.bridge, session, kind, params, request);
    FreshToCodex(s, request);
    Codex.AcceptKeeps(s.codex, id, kind, LastCard(Bridge.Start(env, s.bridge, i, request).log));
  }

  lemma AcceptedTells(s: System, b': Bridge.State, c': Codex.State, asked': map<nat, Asked>, e: Codex.Event)
    requires TellsOk(s) && s.bridge.log <= b'.log && c'.log == s.codex.log + [e] && !e.Responded?
    requires forall c :: c in s.asked && c < |s.codex.log| ==> c in asked' && asked'[c] == s.asked[c]
    ensures TellsOk(System(b', c', asked'))
  {
    TellsStay(s, b'.log);
    forall n | 0 <= n < |c'.log| ensures Tells(b'.log, c'.log, asked', n) {
      if n < |s.codex.log| { TellsGrow(b'.log, s.codex.log, c'.log, s.asked, asked', n); }
    }
  }

  lemma RequestKeepsTells(
    env: Bridge.Env, s: System, id: Id, kind: RequestKind, session: string, params: Json, request: string)
    requires TellsOk(s) && KeyOf(id) !in s.codex.owner && Enabled(env, s, Request(id, kind, session, params, request))
    ensures TellsOk(Next(env, s, Request(id, kind, session, params, request)))
  {
    var i := CodexInput(session, kind, params);
    var b' := Bridge.Start(env, s.bridge, i, request);
    StepExtends(env, s.bridge, Bridge.Begin(i, request));
    var card := LastCard(b'.log);
    AcceptedTells(s, b', Codex.AcceptStep(s.codex, id, kind, card),
                  s.asked[|s.codex.log| := Asked(session, params, |s.bridge.log|)], Codex.Accepted(id, kind, card));
  }

  lemma RequestKeeps(
    env: Bridge.Env, disk0: seq<Bridge.Store.Entry>, s: System, id: Id, kind: RequestKind, session: string, params: Json, request: string)
    requires Inv(env, disk0, s) && Enabled(env, s, Request(id, kind, session, params, request))
    ensures Inv(env, disk0, Next(env, s, Request(id, kind, session, params, request)))
  {
    if KeyOf(id) !in s.codex.owner {
      RequestKeepsLayers(env, disk0, s, id, kind, session, params, request);
      RequestKeepsLinks(env, disk0, s, id, kind, session, params, request);
      RequestKeepsWork(env, disk0, s, id, kind, session, params, request);
      RequestKeepsTells(env, s, id, kind, session, params, request);
    }
  }

  lemma FinishKeeps(env: Bridge.Env, disk0: seq<Bridge.Store.Entry>, s: System, call: nat, sendOk: bool)
    requires Inv(env, disk0, s) && Enabled(env, s, Finish(call, sendOk))
    ensures Inv(env, disk0, Next(env, s, Finish(call, sendOk)))
  {
    Codex.FinishKeeps(s.codex, call, sendOk);
    FinishKeepsLinks(s, Codex.FinishStep(s.codex, call, sendOk), call, sendOk);
    FinishKeepsTells(s, Codex.FinishStep(s.codex, call, sendOk), call, sendOk);
  }

  lemma FinishKeepsLinks(s: System, c': Codex.State, call: nat, sendOk: bool)
    requires LinksOk(s) && WorkOk(s) && Codex.Enabled(s.codex, Codex.Finish(call, sendOk))
    requires c' == Codex.FinishStep(s.codex, call, sendOk)
    ensures LinksOk(s.(codex := c')) && WorkOk(s.(codex := c'))
  {
    Codex.FinishExtends(s.codex, call, sendOk);
    Codex.ExtendsSame(s.codex.log, c'.log);
  }

  lemma FinishKeepsTells(s: System, c': Codex.State, call: nat, sendOk: bool)
    requires WorkOk(s) && TellsOk(s) && Codex.Enabled(s.codex, Codex.Finish(call, sendOk))
    requires c' == Codex.FinishStep(s.codex, call, sendOk)
    ensures TellsOk(s.(codex := c'))
  {
    Codex.FinishExtends(s.codex, call, sendOk);
    forall n | 0 <= n < |c'.log| ensures Tells(s.bridge.log, c'.log, s.asked, n) {
      if n < |s.codex.log| {
        TellsGrow(s.bridge.log, s.codex.log, c'.log, s.asked, s.asked, n);
      } else {
        FinishTells(s, call, sendOk, n);
      }
    }
  }

  lemma FinishTells(s: System, call: nat, sendOk: bool, n: nat)
    requires WorkOk(s) && Codex.Enabled(s.codex, Codex.Finish(call, sendOk))
    requires |s.codex.log| <= n < |Codex.FinishStep(s.codex, call, sendOk).log|
    ensures Tells(s.bridge.log, Codex.FinishStep(s.codex, call, sendOk).log, s.asked, n)
  {
    var c', es := Codex.FinishStep(s.codex, call, sendOk), Codex.FinishEvents(s.codex, call, sendOk);
    assert c'.log == s.codex.log + es && c'.log[n] == es[n - |s.codex.log|];
    assert WorkTold(s.bridge.log, s.codex.work[call], s.asked[call]);
    assert c'.log[call] == s.codex.log[call];
  }

  // ---------------------------------------------------------------------------------------------
  // Exit.
  // ---------------------------------------------------------------------------------------------

  lemma {:induction false} CancelsKeep(env: Bridge.Env, disk0: seq<Bridge.Store.Entry>, b: Bridge.State, order: seq<string>)
    requires BridgeOk(env, disk0, b)
    ensures BridgeOk(env, disk0, CancelAll(env, b, order)) && b.log <= CancelAll(env, b, order).log
    decreases |order|
  {
    if order != [] {
      var t := Bridge.CancelPending(order[0], Bridge.ChildExit);
      BridgeOkStep(env, disk0, b, t);
      CancelsKeep(env, disk0, Bridge.Next(env, b, t), order[1..]);
    }
  }

  lemma {:induction false} CancelsLater(env: Bridge.Env, b: Bridge.State, order: seq<string>, call: nat)
    requires call !in b.paused
    ensures Later(b, CancelAll(env, b, order), call)
    decreases |order|
  {
    if order != [] {
      var t := Bridge.CancelPending(order[0], Bridge.ChildExit);
      StepLater(env, b, t, call);
      CancelsLater(env, Bridge.Next(env, b, t), order[1..], call);
      LaterThen(b, Bridge.Next(env, b, t), CancelAll(env, b, order), call);
    }
  }

  lemma CancelOne(env: Bridge.Env, b: Bridge.State, x: string, r: string)
    requires Once.Once(b, None) && r in b.pending
    ensures var b' := Bridge.Next(env, b, Bridge.CancelPending(x, Bridge.ChildExit));
      if x == r then Outcome(b'.log, b.pending[r].call) == Some(Bridge.Refused(Bridge.ChildExit))
      else r in b'.pending && b'.pending[r] == b.pending[r]
  {
    WaitingHasNone(b, r);
    OutcomeAppend(b.log, Bridge.Settled(b.pending[r].call, Bridge.Refused(Bridge.ChildExit)), b.pending[r].call);
  }

  /** Cancelling settles the waiting requests named, as refusals, and lets the others wait. */
  lemma {:induction false} CancelsRefuse(
    env: Bridge.Env, disk0: seq<Bridge.Store.Entry>, b: Bridge.State, order: seq<string>, r: string)
    requires BridgeOk(env, disk0, b) && r in b.pending
    ensures Outcome(CancelAll(env, b, order).log, b.pending[r].call) ==
      if r in order then Some(Bridge.Refused(Bridge.ChildExit)) else None
    decreases |order|
  {
    if order == [] {
      WaitingHasNone(b, r);
    } else {
      CancelOne(env, b, order[0], r);
      CancelFirst(env, disk0, b, order);
      var m := Bridge.Next(env, b, Bridge.CancelPending(order[0], Bridge.ChildExit));
      if order[0] == r {
        OutcomeStays(m.log, CancelAll(env, b, order).log, b.pending[r].call);
      } else {
        CancelsRefuse(env, disk0, m, order[1..], r);
      }
    }
  }

  lemma CancelFirst(env: Bridge.Env, disk0: seq<Bridge.Store.Entry>, b: Bridge.State, order: seq<string>)
    requires BridgeOk(env, disk0, b) && order != []
    ensures var m := Bridge.Next(env, b, Bridge.CancelPending(order[0], Bridge.ChildExit));
      && BridgeOk(env, disk0, m) && CancelAll(env, b, order) == CancelAll(env, m, order[1..])
      && m.log <= CancelAll(env, b, order).log
  {
    var t := Bridge.CancelPending(order[0], Bridge.ChildExit);
    BridgeOkStep(env, disk0, b, t);
    CancelsKeep(env, disk0, Bridge.Next(env, b, t), order[1..]);
  }

  lemma ExitWork(env: Bridge.Env, disk0: seq<Bridge.Store.Entry>, s: System, order: seq<string>, c: nat)
    requires BridgeOk(env, disk0, s.bridge) && LinksOk(s) && WorkOk(s) && Codex.WorkOk(s.codex)
    requires Enabled(env, s, Exit(order)) && c in s.codex.work
    ensures WorkTold(CancelAll(env, s.bridge, order).log, Codex.Cancelled(s.codex.work[c], Codex.Requests(s.codex)), s.asked[c])
  {
    assert WorkTold(s.bridge.log, s.codex.work[c], s.asked[c]);
    if s.codex.work[c].AtBridge? {
      CardWaits(s, c);
    }
    ExitOne(env, disk0, s.bridge, order, s.codex.work[c], Codex.Requests(s.codex), s.asked[c]);
  }

  lemma ExitOne(
    env: Bridge.Env, disk0: seq<Bridge.Store.Entry>, b: Bridge.State, order: seq<string>, w: Codex.Work, rs: set<string>, a: Asked)
    requires BridgeOk(env, disk0, b) && WorkTold(b.log, w, a) && (set r | r in order) == rs
    requires w.AtBridge? ==> w.request in b.pending && b.pending[w.request].call == a.at
    ensures WorkTold(CancelAll(env, b, order).log, Codex.Cancelled(w, rs), a)
  {
    if w.AtBridge? {
      CancelsRefuse(env, disk0, b, order, w.request);
      assert w.request in order <==> w.request in rs;
    } else {
      CancelsKeep(env, disk0, b, order);
      OutcomeStays(b.log, CancelAll(env, b, order).log, a.at);
    }
  }

  /** A codex request at the bridge waits there under its card. */
  lemma CardWaits(s: System, c: nat)
    requires Once.Once(s.bridge, None) && Once.Carded(s.bridge) && LinksOk(s) && WorkOk(s) && Codex.WorkOk(s.codex)
    requires c in s.codex.work && s.codex.work[c].AtBridge?
    ensures var r := s.codex.work[c].request;
      r in s.bridge.pending && s.bridge.pending[r].call == s.asked[c].at
  {
    var w, a := s.codex.work[c], s.asked[c];
    assert WorkTold(s.bridge.log, w, a);
    assert Codex.CardOf(s.codex.log, c, w.request);
    assert Linked(s.bridge, s.codex.log[c].kind, Some(w.request), a);
    WaitsUnderCard(s.bridge, s.codex.log[c].kind, w.request, a);
  }

  lemma ExitKeeps(env: Bridge.Env, disk0: seq<Bridge.Store.Entry>, s: System, order: seq<string>)
    requires Inv(env, disk0, s) && Enabled(env, s, Exit(order))
    ensures Inv(env, disk0, Next(env, s, Exit(order)))
  {
    if !s.codex.suppressed {
      var s', e := Next(env, s, Exit(order)), Codex.ExitDenied(Codex.Requests(s.codex));
      CancelsKeep(env, disk0, s.bridge, order);
      Codex.ExitKeeps(s.codex);
      Codex.ExtendsSame(s.codex.log, s.codex.log + [e]);
      TellsStay(s, s'.bridge.log);
      forall n | 0 <= n < |s'.codex.log| ensures Tells(s'.bridge.log, s'.codex.log, s'.asked, n) {
        if n < |s.codex.log| { TellsGrow(s'.bridge.log, s.codex.log, s'.codex.log, s.asked, s.asked, n); }
      }
      forall c | c in s'.codex.work ensures WorkTold(s'.bridge.log, s'.codex.work[c], s'.asked[c]) {
        ExitWork(env, disk0, s, order, c);
      }
      ExitLinks(env, disk0, s, order);
    }
  }

  lemma ExitLinks(env: Bridge.Env, disk0: seq<Bridge.Store.Entry>, s: System, order: seq<string>)
    requires LinksOk(s) && Enabled(env, s, Exit(order)) && !s.codex.suppressed
    ensures LinksOk(Next(env, s, Exit(order)))
  {
    var s', e := Next(env, s, Exit(order)), Codex.ExitDenied(Codex.Requests(s.codex));
    Codex.ExtendsSame(s.codex.log, s.codex.log + [e]);
    forall c: nat | Codex.AcceptedAt(s.codex.log, c)
      ensures Linked(s'.bridge, s.codex.log[c].kind, s.codex.log[c].card, s.asked[c])
    {
      CancelsLater(env, s.bridge, order, s.asked[c].at);
      LinksStay(s, s'.bridge, c);
    }
  }

  // ---------------------------------------------------------------------------------------------
  // Whole runs.
  // ---------------------------------------------------------------------------------------------

  lemma StepKeeps(env: Bridge.Env, disk0: seq<Bridge.Store.Entry>, s: System, t: Step)
    requires Inv(env, disk0, s) && Enabled(env, s, t)
    ensures Inv(env, disk0, Next(env, s, t))
  {
    match t
    case Request(id, kind, session, params, request) => RequestKeeps(env, disk0, s, id, kind, session, params, request);
    case AtTheBridge(u) => BridgeStepKeeps(env, disk0, s, u);
    case Finish(call, sendOk) => FinishKeeps(env, disk0, s, call, sendOk);
    case Exit(order) => ExitKeeps(env, disk0, s, order);
  }

  lemma {:induction false} RunKeeps(env: Bridge.Env, disk0: seq<Bridge.Store.Entry>, s: System, ts: seq<Step>)
    requires Inv(env, disk0, s) && ValidRun(env, s, ts)
    ensures Inv(env, disk0, Run(env, s, ts))
    decreases |ts|
  {
    if ts != [] {
      StepKeeps(env, disk0, s, ts[0]);
      RunKeeps(env, disk0, Next(env, s, ts[0]), ts[1..]);
    }
  }

  lemma FreshOk(env: Bridge.Env, b: Bridge.State)
    requires Bridge.Initial(b)
    ensures Inv(env, b.disk, Fresh(b))
  {
    Once.InitialOnce(b);
    Codex.StartOk();
  }

  /** A call's outcome is one the bridge produces, and an allow on a card is the operator's decision on it. */
  lemma OutcomeOnCard(env: Bridge.Env, disk0: seq<Bridge.Store.Entry>, b: Bridge.State, kind: RequestKind, r: string, a: Asked)
    requires Provenance.Inv(env, disk0, b) && Linked(b, kind, Some(r), a) && Outcome(b.log, a.at).Some?
    ensures var result := Outcome(b.log, a.at).value;
      CardResult(result) && (result.behavior == Bridge.Allowed ==> result.decision.Some? && DecidedOn(b.log, a.at, r, result.decision.value))
  {
    var result := Outcome(b.log, a.at).value;
    var k := OutcomeAt(b.log, a.at);
    assert Provenance.Justified(env, disk0, b.log, k);
    if result.behavior == Bridge.Allowed {
      assert b.log[k].Settled? && CardResult(result) && Provenance.ByOperator(b.log, k);
      var j :| && 0 <= j < k && b.log[j].Decided? && b.log[j].call == a.at && result.decision == Some(b.log[j].decision)
               && Provenance.HasCard(b.log[..j], a.at, b.log[j].id);
      var m: nat :| Provenance.CardAt(b.log[..j], m, a.at, b.log[j].id);
      assert b.log[m] == b.log[..j][m];
      assert DecidedAt(b.log, j, a.at, r, result.decision.value);
    }
  }

  /** At position j the operator gave this decision on this call's card. */
  ghost predicate DecidedAt(log: seq<Bridge.Event>, j: nat, call: nat, id: string, d: Bridge.Decision) {
    && j < |log| && log[j].Decided? && log[j].call == call && log[j].id == id && log[j].decision == d
    && Provenance.HasCard(log[..j], call, id)
  }

  ghost predicate DecidedOn(log: seq<Bridge.Event>, call: nat, id: string, d: Bridge.Decision) {
    exists j: nat :: DecidedAt(log, j, call, id, d)
  }

  lemma OutcomeIsBridgeResult(
    env: Bridge.Env, disk0: seq<Bridge.Store.Entry>, b: Bridge.State, kind: RequestKind, card: Option<string>, a: Asked)
    requires Provenance.Inv(env, disk0, b) && Linked(b, kind, card, a) && Outcome(b.log, a.at).Some?
    ensures BridgeResult(Outcome(b.log, a.at).value)
  {
    if card.Some? { OutcomeOnCard(env, disk0, b, kind, card.value, a); }
  }

  /** A response belongs to an accepted request, whose call the bridge knows. */
  ghost predicate Answers(s: System, n: nat)
    requires n < |s.codex.log| && s.codex.log[n].Responded?
  {
    var c := s.codex.log[n].call;
    && Codex.AcceptedAt(s.codex.log, c) && c in s.asked && s.codex.log[n].id == s.codex.log[c].id
    && Provenance.CalledAt(s.bridge.log, s.asked[c].at)
    && s.bridge.log[s.asked[c].at].input == CodexInput(s.asked[c].session, s.codex.log[c].kind, s.asked[c].params)
  }

  /** What codex reads from a response. */
  function Told(s: System, n: nat): Bridge.Decision
    requires n < |s.codex.log| && s.codex.log[n].Responded? && Codex.AcceptedAt(s.codex.log, s.codex.log[n].call)
  {
    ReadBody(s.codex.log[s.codex.log[n].call].kind, s.codex.log[n].body)
  }

  /**
   In every run of the whole system, each response answers an accepted request, and codex reads from it
   the one outcome the bridge gave that request's call: it is told to go ahead if and only if the bridge
   allowed, except that permissions are always refused.
   */
  lemma ToldIsOutcome(env: Bridge.Env, b: Bridge.State, ts: seq<Step>, n: nat)
    requires Bridge.Initial(b) && ValidRun(env, Fresh(b), ts)
    requires n < |Run(env, Fresh(b), ts).codex.log| && Run(env, Fresh(b), ts).codex.log[n].Responded?
    ensures var s := Run(env, Fresh(b), ts);
      && Answers(s, n)
      && var c := s.codex.log[n].call;
         var kind, log, at := s.codex.log[c].kind, s.bridge.log, s.asked[c].at;
         && Once.Settles(log, at) == 1 && Outcome(log, at).Some?
         && (Told(s, n) in {Bridge.Allow, Bridge.AllowForSession} <==>
             !kind.Permissions? && Outcome(log, at).value.behavior == Bridge.Allowed)
         && (!kind.Permissions? && Outcome(log, at).value.decision.Some? ==> Some(Told(s, n)) == Outcome(log, at).value.decision)
  {
    var s := Run(env, Fresh(b), ts);
    FreshOk(env, b);
    RunKeeps(env, b.disk, Fresh(b), ts);
    ToldFromInv(env, b.disk, s, n);
  }

  lemma ToldFromInv(env: Bridge.Env, disk0: seq<Bridge.Store.Entry>, s: System, n: nat)
    requires Inv(env, disk0, s) && n < |s.codex.log| && s.codex.log[n].Responded?
    ensures Answers(s, n)
    ensures var c := s.codex.log[n].call;
      var kind, log, at := s.codex.log[c].kind, s.bridge.log, s.asked[c].at;
      && Linked(s.bridge, kind, s.codex.log[c].card, s.asked[c])
      && Once.Settles(log, at) == 1 && Outcome(log, at).Some?
      && (Told(s, n) in {Bridge.Allow, Bridge.AllowForSession} <==>
          !kind.Permissions? && Outcome(log, at).value.behavior == Bridge.Allowed)
      && Told(s, n) == (
           var d := DecisionOf(Outcome(log, at).value);
           if kind.Permissions? || d.None? then Bridge.Deny else d.value)
  {
    assert Tells(s.bridge.log, s.codex.log, s.asked, n);
    var c := s.codex.log[n].call;
    var kind, log, at := s.codex.log[c].kind, s.bridge.log, s.asked[c].at;
    assert Linked(s.bridge, kind, s.codex.log[c].card, s.asked[c]);
    OutcomeIffSettles(log, at);
    SettledOnce(s.bridge, at);
    OutcomeIsBridgeResult(env, disk0, s.bridge, kind, s.codex.log[c].card, s.asked[c]);
    GoAheadExact(kind, Outcome(log, at).value);
    BodyReadsBack(kind, DecisionOf(Outcome(log, at).value));
  }

  lemma SettledOnce(b: Bridge.State, call: nat)
    requires Once.Once(b, None) && Once.Settles(b.log, call) >= 1
    ensures Once.Settles(b.log, call) == 1
  {
    assert Once.Places(b, call) <= 1;
  }

  /**
   In every run of the whole system, every response codex reads as a go-ahead is the operator's own
   decision on that request's card or, for a request without a card, a single allow that rests on a
   session grant of the same signature since the last drain.
   */
  lemma GoAheadTraced(env: Bridge.Env, b: Bridge.State, ts: seq<Step>, n: nat)
    requires Bridge.Initial(b) && ValidRun(env, Fresh(b), ts)
    requires n < |Run(env, Fresh(b), ts).codex.log| && Run(env, Fresh(b), ts).codex.log[n].Responded?
    ensures var s := Run(env, Fresh(b), ts);
      && Answers(s, n)
      && var c := s.codex.log[n].call;
         var log, at := s.bridge.log, s.asked[c].at;
         Told(s, n) in {Bridge.Allow, Bridge.AllowForSession} ==>
           match s.codex.log[c].card
           case Some(r) => DecidedOn(log, at, r, Told(s, n))
           case None => Told(s, n) == Bridge.Allow && exists k: nat :: SessionHit(env, log, k, at)
  {
    var s := Run(env, Fresh(b), ts);
    FreshOk(env, b);
    RunKeeps(env, b.disk, Fresh(b), ts);
    ToldFromInv(env, b.disk, s, n);
    var c := s.codex.log[n].call;
    var a := s.asked[c];
    match s.codex.log[c].card
    case Some(r) => OutcomeOnCard(env, b.disk, s.bridge, s.codex.log[c].kind, r, a);
    case None =>
      assert Provenance.Justified(env, b.disk, s.bridge.log, a.at + 1);
      assert SessionHit(env, s.bridge.log, a.at + 1, a.at);
  }

  /** At position k the call was allowed by a session grant. */
  ghost predicate SessionHit(env: Bridge.Env, log: seq<Bridge.Event>, k: nat, call: nat) {
    k < |log| && log[k].Settled? && log[k].call == call && Provenance.BySession(env, log, k)
  }

  // ---------------------------------------------------------------------------------------------
  // Each layer does a run of its own.
  // ---------------------------------------------------------------------------------------------

  ghost predicate BridgeRunTo(env: Bridge.Env, b: Bridge.State, b': Bridge.State, bts: seq<Bridge.Step>) {
    Bridge.ValidRun(env, b, bts) && Bridge.Run(env, b, bts) == b'
  }

  lemma {:induction false} BridgeRunThen(
    env: Bridge.Env, b: Bridge.State, m: Bridge.State, b': Bridge.State, xs: seq<Bridge.Step>, ys: seq<Bridge.Step>)
    requires BridgeRunTo(env, b, m, xs) && BridgeRunTo(env, m, b', ys)
    ensures BridgeRunTo(env, b, b', xs + ys)
    decreases |xs|
  {
    if xs == [] {
      assert xs + ys == ys;
    } else {
      var n := BridgeFirst(env, b, m, xs);
      BridgeRunThen(env, n, m, b', xs[1..], ys);
      BridgeThen(env, b, n, b', xs[0], xs[1..] + ys);
      assert [xs[0]] + (xs[1..] + ys) == xs + ys;
    }
  }

  ghost predicate BridgeStepTo(env: Bridge.Env, b: Bridge.State, t: Bridge.Step, n: Bridge.State) {
    Bridge.Enabled(env, b, t) && Bridge.Next(env, b, t) == n
  }

  lemma {:induction false} BridgeFirst(env: Bridge.Env, b: Bridge.State, b': Bridge.State, ts: seq<Bridge.Step>) returns (n: Bridge.State)
    requires ts != [] && BridgeRunTo(env, b, b', ts)
    ensures BridgeStepTo(env, b, ts[0], n) && BridgeRunTo(env, n, b', ts[1..])
  {
    n := Bridge.Next(env, b, ts[0]);
  }

  lemma {:induction false} BridgeThen(env: Bridge.Env, b: Bridge.State, n: Bridge.State, b': Bridge.State, t: Bridge.Step, ts: seq<Bridge.Step>)
    requires BridgeStepTo(env, b, t, n) && BridgeRunTo(env, n, b', ts)
    ensures BridgeRunTo(env, b, b', [t] + ts)
  {
    assert ([t] + ts)[0] == t && ([t] + ts)[1..] == ts;
  }

  lemma {:induction false} CodexRunThen(c: Codex.State, xs: seq<Codex.Step>, ys: seq<Codex.Step>)
    requires Codex.ValidRun(c, xs) && Codex.ValidRun(Codex.Run(c, xs), ys)
    ensures Codex.ValidRun(c, xs + ys) && Codex.Run(c, xs + ys) == Codex.Run(Codex.Run(c, xs), ys)
    decreases |xs|
  {
    if xs == [] {
      assert xs + ys == ys;
    } else {
      assert (xs + ys)[0] == xs[0] && (xs + ys)[1..] == xs[1..] + ys;
      CodexRunThen(Codex.Next(c, xs[0]), xs[1..], ys);
    }
  }

  lemma BridgeRunOne(env: Bridge.Env, b: Bridge.State, t: Bridge.Step)
    requires Bridge.Enabled(env, b, t)
    ensures Bridge.ValidRun(env, b, [t]) && Bridge.Run(env, b, [t]) == Bridge.Next(env, b, t)
  {
    assert [t][1..] == [];
  }

  lemma CodexRunOne(c: Codex.State, t: Codex.Step)
    requires Codex.Enabled(c, t)
    ensures Codex.ValidRun(c, [t]) && Codex.Run(c, [t]) == Codex.Next(c, t)
  {
    assert [t][1..] == [];
  }

  lemma {:induction false} CancelsRun(env: Bridge.Env, b: Bridge.State, order: seq<string>) returns (bts: seq<Bridge.Step>)
    ensures Bridge.ValidRun(env, b, bts) && Bridge.Run(env, b, bts) == CancelAll(env, b, order)
    decreases |order|
  {
    bts := [];
    if order != [] {
      var t := Bridge.CancelPending(order[0], Bridge.ChildExit);
      var rest := CancelsRun(env, Bridge.Next(env, b, t), order[1..]);
      bts := [t] + rest;
      assert bts[0] == t && bts[1..] == rest;
    }
  }

  /** Absorbing is a run of settlements, one request after the other. */
  lemma {:induction false} AbsorbRun(c: Codex.State, log: seq<Bridge.Event>, asked: map<nat, Asked>, todo: set<nat>)
    returns (cts: seq<Codex.Step>)
    requires todo <= c.work.Keys
    requires forall call :: call in c.work && call !in todo ==> Promised(c.work[call], call, log, asked) == c.work[call]
    ensures Codex.ValidRun(c, cts) && Codex.Run(c, cts) == Absorb(c, log, asked)
    decreases todo
  {
    cts := [];
    if todo == {} {
      assert Absorb(c, log, asked).work == c.work;
    } else {
      var x :| x in todo;
      var w := Promised(c.work[x], x, log, asked);
      if w == c.work[x] {
        cts := AbsorbRun(c, log, asked, todo - {x});
      } else {
        var t := Codex.BridgeSettles(x, w.result);
        var next := Codex.Next(c, t);
        assert next == c.(work := c.work[x := w]);
        assert Absorb(next, log, asked).work == Absorb(c, log, asked).work;
        var rest := AbsorbRun(next, log, asked, todo - {x});
        cts := [t] + rest;
        assert cts[0] == t && cts[1..] == rest;
      }
    }
  }

  ghost predicate CodexRunTo(c: Codex.State, c': Codex.State, cts: seq<Codex.Step>) {
    Codex.ValidRun(c, cts) && Codex.Run(c, cts) == c'
  }

  lemma StepLayers(env: Bridge.Env, disk0: seq<Bridge.Store.Entry>, s: System, t: Step)
    returns (bts: seq<Bridge.Step>, cts: seq<Codex.Step>)
    requires Inv(env, disk0, s) && Enabled(env, s, t)
    ensures BridgeRunTo(env, s.bridge, Next(env, s, t).bridge, bts) && CodexRunTo(s.codex, Next(env, s, t).codex, cts)
  {
    bts, cts := [], [];
    match t
    case Request(id, kind, session, params, request) =>
      if KeyOf(id) !in s.codex.owner {
        bts, cts := RequestLayers(env, disk0, s, id, kind, session, params, request);
      }
    case AtTheBridge(u) =>
      bts := [u];
      BridgeRunOne(env, s.bridge, u);
      cts := AbsorbRun(s.codex, Bridge.Next(env, s.bridge, u).log, s.asked, s.codex.work.Keys);
    case Finish(call, sendOk) =>
      cts := [Codex.Finish(call, sendOk)];
      CodexRunOne(s.codex, cts[0]);
    case Exit(order) =>
      if !s.codex.suppressed {
        bts := CancelsRun(env, s.bridge, order);
        cts := [Codex.ChildExit];
        CodexRunOne(s.codex, cts[0]);
      }
  }

  lemma RequestLayers(
    env: Bridge.Env, disk0: seq<Bridge.Store.Entry>, s: System, id: Id, kind: RequestKind, session: string, params: Json, request: string)
    returns (bts: seq<Bridge.Step>, cts: seq<Codex.Step>)
    requires Inv(env, disk0, s) && KeyOf(id) !in s.codex.owner
    requires Enabled(env, s, Request(id, kind, session, params, request))
    ensures var s' := Next(env, s, Request(id, kind, session, params, request));
      BridgeRunTo(env, s.bridge, s'.bridge, bts) && CodexRunTo(s.codex, s'.codex, cts)
  {
    var i := CodexInput(session, kind, params);
    var b' := Bridge.Start(env, s.bridge, i, request);
    RequestShape(env, s.bridge, session, kind, params, request);
    FreshToCodex(s, request);
    bts, cts := [Bridge.Begin(i, request)], [Codex.Accept(id, kind, LastCard(b'.log))];
    BridgeRunOne(env, s.bridge, bts[0]);
    CodexRunOne(s.codex, cts[0]);
  }

  lemma {:induction false} RunLayers(env: Bridge.Env, disk0: seq<Bridge.Store.Entry>, s: System, ts: seq<Step>)
    returns (bts: seq<Bridge.Step>, cts: seq<Codex.Step>)
    requires Inv(env, disk0, s) && ValidRun(env, s, ts)
    ensures BridgeRunTo(env, s.bridge, Run(env, s, ts).bridge, bts) && CodexRunTo(s.codex, Run(env, s, ts).codex, cts)
    decreases |ts|
  {
    bts, cts := [], [];
    if ts != [] {
      var m := Next(env, s, ts[0]);
      bts, cts := StepLayers(env, disk0, s, ts[0]);
      StepKeeps(env, disk0, s, ts[0]);
      var more, moreC := RunLayers(env, disk0, m, ts[1..]);
      BridgeRunThen(env, s.bridge, m.bridge, Run(env, s, ts).bridge, bts, more);
      CodexRunThen(s.codex, cts, moreC);
      bts, cts := bts + more, cts + moreC;
    }
  }

  /** In every run of the whole system each layer goes through a run of its own, so whatever holds of all their runs holds here. */
  lemma LayersRun(env: Bridge.Env, b: Bridge.State, ts: seq<Step>)
    requires Bridge.Initial(b) && ValidRun(env, Fresh(b), ts)
    ensures exists bts :: BridgeRunTo(env, b, Run(env, Fresh(b), ts).bridge, bts)
    ensures exists cts :: CodexRunTo(Codex.Start, Run(env, Fresh(b), ts).codex, cts)
  {
    FreshOk(env, b);
    var bts, cts := RunLayers(env, b.disk, Fresh(b), ts);
  }
}
