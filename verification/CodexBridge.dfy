/**
 The codex approval layer: JSON-RPC approval requests are put through the approval bridge, and each
 outcome goes back to the codex process as a response and to the audit trail as a resolved event.

 The bridge settles a request at one time and its continuation (`finish`) runs later, in any order
 among those that are due; the codex process may exit at any point.  Main results, over every run:
 `MapsAreInverse`, `CardResolvedOnce`, `AtMostOneResponse`, `AnsweredExactlyOnce`, `SilentAfterExit`
 and, for every run the runner can produce, `ResolvedIsOwn` (each resolved event speaks for its own request).
 */
module CodexBridge {
  import opened Options
  import opened Json
  import opened CodexRequests
  import Bridge = ApprovalBridge

  datatype Target = Target(id: Id, kind: RequestKind)

  /** A request is named by the position of its `Accepted` event, which says whether a card was shown. */
  datatype Event =
    | Accepted(id: Id, kind: RequestKind, card: Option<string>)
    | Responded(call: nat, id: Id, body: Json)
    | Resolved(request: string, decision: Bridge.Decision, origin: Option<Bridge.Origin>, sent: bool, cause: nat)
    | ExitDenied(requests: set<string>)

  /** What is still to happen for a request: an answer at the bridge, or its continuation with the bridge's result. */
  datatype Work = AtBridge(request: string) | Due(result: Bridge.Result)

  datatype State = State(
    // The keys in flight, each with the request that put it there.
    owner: map<string, nat>,
    forward: map<string, string>,
    reverse: map<string, Target>,
    suppressed: bool,
    work: map<nat, Work>,
    log: seq<Event>)

  datatype Step =
    | Accept(id: Id, kind: RequestKind, card: Option<string>)
    | BridgeSettles(call: nat, result: Bridge.Result)
    | Finish(call: nat, sendOk: bool)
    | ChildExit

  // ---------------------------------------------------------------------------------------------
  // Steps.
  // ---------------------------------------------------------------------------------------------

  /** A request comes in: ignored if its key is in flight, answered by the session cache, or shown on a card. */
  function AcceptStep(s: State, id: Id, kind: RequestKind, card: Option<string>): State {
    var key, call := KeyOf(id), |s.log|;
    if key in s.owner then s
    else
      var s' := s.(owner := s.owner[key := call], log := s.log + [Accepted(id, kind, card)]);
      match card
      case None => s'.(work := s.work[call := Due(Bridge.AutoAllow)])
      case Some(r) =>
        s'.(forward := s.forward[key := r], reverse := s.reverse[r := Target(id, kind)], work := s.work[call := AtBridge(r)])
  }

  function SettleStep(s: State, call: nat, r: Bridge.Result): State {
    if call in s.work && s.work[call].AtBridge? then s.(work := s.work[call := Due(r)]) else s
  }

  predicate AcceptedAt(log: seq<Event>, call: nat) {
    call < |log| && log[call].Accepted?
  }

  function Key(log: seq<Event>, call: nat): string
    requires AcceptedAt(log, call)
  {
    KeyOf(log[call].id)
  }

  /** The events of a continuation that finds its key in flight: the response if it can be sent, then the resolved event. */
  function FinishEvents(s: State, call: nat, sendOk: bool): seq<Event>
    requires AcceptedAt(s.log, call) && call in s.work && s.work[call].Due?
  {
    var key, result := Key(s.log, call), s.work[call].result;
    var d, sent := DecisionOf(result), !s.suppressed && sendOk;
    (if sent then [Responded(call, s.log[call].id, ResultBody(s.log[call].kind, d))] else [])
    + (if key in s.forward
       then [Resolved(s.forward[key], if d.Some? then d.value else Bridge.Deny, result.origin, sent, call)]
       else [])
  }

  function Found(s: State, key: string): set<string> {
    if key in s.forward then {s.forward[key]} else {}
  }

  function FinishStep(s: State, call: nat, sendOk: bool): State
    requires AcceptedAt(s.log, call) && call in s.work && s.work[call].Due?
  {
    var key := Key(s.log, call);
    if key !in s.owner then s.(work := s.work - {call})
    else
      s.(owner := s.owner - {key}, forward := s.forward - {key}, reverse := s.reverse - Found(s, key),
         work := s.work - {call}, log := s.log + FinishEvents(s, call, sendOk))
  }

  function Requests(s: State): set<string> {
    set k | k in s.forward :: s.forward[k]
  }

  function Cancelled(w: Work, rs: set<string>): Work {
    if w.AtBridge? && w.request in rs then Due(Bridge.Refused(Bridge.ChildExit)) else w
  }

  /** The codex process exits: every request in flight is denied and its waiting at the bridge cancelled. */
  function ExitStep(s: State): State {
    if s.suppressed then s
    else
      var rs := Requests(s);
      State(map[], map[], s.reverse - rs, true, map c | c in s.work :: Cancelled(s.work[c], rs), s.log + [ExitDenied(rs)])
  }

  predicate CardOf(log: seq<Event>, call: nat, request: string) {
    AcceptedAt(log, call) && log[call].card == Some(request)
  }

  predicate FreshRequest(log: seq<Event>, request: string) {
    forall k: nat :: k < |log| ==> !CardOf(log, k, request)
  }

  predicate Enabled(s: State, t: Step) {
    match t
    case Accept(_, _, card) => card.Some? ==> FreshRequest(s.log, card.value)
    case Finish(call, _) => AcceptedAt(s.log, call) && call in s.work && s.work[call].Due?
    case _ => true
  }

  function Next(s: State, t: Step): State
    requires Enabled(s, t)
  {
    match t
    case Accept(id, kind, card) => AcceptStep(s, id, kind, card)
    case BridgeSettles(call, r) => SettleStep(s, call, r)
    case Finish(call, sendOk) => FinishStep(s, call, sendOk)
    case ChildExit => ExitStep(s)
  }

  const Start := State(map[], map[], map[], false, map[], [])

  predicate ValidRun(s: State, ts: seq<Step>)
    decreases |ts|
  {
    ts != [] ==> Enabled(s, ts[0]) && ValidRun(Next(s, ts[0]), ts[1..])
  }

  function Run(s: State, ts: seq<Step>): State
    requires ValidRun(s, ts)
    decreases |ts|
  {
    if ts == [] then s else Run(Next(s, ts[0]), ts[1..])
  }

  // ---------------------------------------------------------------------------------------------
  // Counting.
  // ---------------------------------------------------------------------------------------------

  function ResolvesIn(e: Event, request: string): nat {
    match e
    case Resolved(r, _, _, _, _) => if r == request then 1 else 0
    case ExitDenied(rs) => if request in rs then 1 else 0
    case _ => 0
  }

  /** How many resolved events a card has had. */
  function Resolves(log: seq<Event>, request: string): nat {
    if log == [] then 0 else Resolves(log[..|log| - 1], request) + ResolvesIn(log[|log| - 1], request)
  }

  function RespondsIn(e: Event, call: nat): nat {
    if e.Responded? && e.call == call then 1 else 0
  }

  /** How many responses a request has had. */
  function Responses(log: seq<Event>, call: nat): nat {
    if log == [] then 0 else Responses(log[..|log| - 1], call) + RespondsIn(log[|log| - 1], call)
  }

  lemma CountAppend(log: seq<Event>, e: Event, request: string, call: nat)
    ensures Resolves(log + [e], request) == Resolves(log, request) + ResolvesIn(e, request)
    ensures Responses(log + [e], call) == Responses(log, call) + RespondsIn(e, call)
  {
    assert (log + [e])[..|log|] == log;
  }

  lemma CountAppendTwo(log: seq<Event>, a: Event, b: Event, request: string, call: nat)
    ensures Resolves(log + [a, b], request) == Resolves(log, request) + ResolvesIn(a, request) + ResolvesIn(b, request)
    ensures Responses(log + [a, b], call) == Responses(log, call) + RespondsIn(a, call) + RespondsIn(b, call)
  {
    assert log + [a, b] == log + [a] + [b];
    CountAppend(log, a, request, call);
    CountAppend(log + [a], b, request, call);
  }

  /** What a continuation's events add to the counts. */
  lemma FinishCounts(s: State, call: nat, sendOk: bool, request: string, c: nat)
    requires AcceptedAt(s.log, call) && call in s.work && s.work[call].Due?
    ensures var es := FinishEvents(s, call, sendOk);
      && Resolves(s.log + es, request) == Resolves(s.log, request) + (if request in Found(s, Key(s.log, call)) then 1 else 0)
      && Responses(s.log + es, c) == Responses(s.log, c) + (if c == call && !s.suppressed && sendOk then 1 else 0)
  {
    var es := FinishEvents(s, call, sendOk);
    if |es| == 2 {
      assert es == [es[0], es[1]];
      CountAppendTwo(s.log, es[0], es[1], request, c);
    } else if |es| == 1 {
      assert es == [es[0]];
      CountAppend(s.log, es[0], request, c);
    } else {
      assert s.log + es == s.log;
    }
  }

  // ---------------------------------------------------------------------------------------------
  // The invariant.
  // ---------------------------------------------------------------------------------------------

  /** Forward and reverse maps are inverse to each other, and cover only keys in flight. */
  predicate Inverse(s: State) {
    && s.forward.Keys <= s.owner.Keys
    && (forall k :: k in s.forward ==> s.forward[k] in s.reverse && KeyOf(s.reverse[s.forward[k]].id) == k)
    && (forall r :: r in s.reverse ==> KeyOf(s.reverse[r].id) in s.forward && s.forward[KeyOf(s.reverse[r].id)] == r)
  }

  /** A key in flight belongs to an unfinished request with that key, and the forward map holds its card. */
  predicate OwnersOk(s: State) {
    forall k :: k in s.owner ==>
      && AcceptedAt(s.log, s.owner[k]) && Key(s.log, s.owner[k]) == k
      && s.owner[k] in s.work
      && s.log[s.owner[k]].card == (if k in s.forward then Some(s.forward[k]) else None)
  }

  predicate WorkOk(s: State) {
    forall c :: c in s.work ==> AcceptedAt(s.log, c) && (s.work[c].AtBridge? ==> CardOf(s.log, c, s.work[c].request))
  }

  predicate Owned(s: State, call: nat) {
    AcceptedAt(s.log, call) && Key(s.log, call) in s.owner && s.owner[Key(s.log, call)] == call
  }

  /** A card is unresolved exactly while its request owns its key; after that it has one resolved event. */
  predicate CardOk(s: State, call: nat) {
    AcceptedAt(s.log, call) && s.log[call].card.Some? ==>
      Resolves(s.log, s.log[call].card.value) == if Owned(s, call) then 0 else 1
  }

  predicate CardsOk(s: State) {
    forall call: nat :: call < |s.log| ==> CardOk(s, call)
  }

  ghost predicate UniqueCards(log: seq<Event>) {
    forall a: nat, b: nat, r: string :: CardOf(log, a, r) && CardOf(log, b, r) ==> a == b
  }

  ghost predicate ResponsesOk(s: State) {
    forall call: nat :: Responses(s.log, call) <= if AcceptedAt(s.log, call) && call !in s.work then 1 else 0
  }

  /** Resolved events are about cards that were shown. */
  ghost predicate ResolvedWereCards(s: State) {
    forall r :: FreshRequest(s.log, r) ==> Resolves(s.log, r) == 0
  }

  ghost predicate Inv(s: State) {
    && Inverse(s) && OwnersOk(s) && WorkOk(s) && CardsOk(s) && UniqueCards(s.log)
    && ResponsesOk(s) && ResolvedWereCards(s)
  }

  // ---------------------------------------------------------------------------------------------
  // Each step keeps it.
  // ---------------------------------------------------------------------------------------------

  /** The log grew by events that accept nothing. */
  predicate Extends(log: seq<Event>, log': seq<Event>) {
    log <= log' && forall k :: |log| <= k < |log'| ==> !log'[k].Accepted?
  }

  lemma ExtendsSame(log: seq<Event>, log': seq<Event>)
    requires Extends(log, log')
    ensures forall c: nat :: AcceptedAt(log', c) <==> AcceptedAt(log, c)
    ensures forall c: nat :: AcceptedAt(log, c) ==> log'[c] == log[c]
    ensures forall c: nat, r :: CardOf(log', c, r) <==> CardOf(log, c, r)
    ensures UniqueCards(log) ==> UniqueCards(log')
    ensures forall r :: FreshRequest(log', r) ==> FreshRequest(log, r)
  {
    forall r | FreshRequest(log', r) ensures FreshRequest(log, r) {
      forall k: nat | k < |log| ensures !CardOf(log, k, r) { assert !CardOf(log', k, r); }
    }
  }

  lemma AcceptExtends(log: seq<Event>, e: Event)
    requires e.Accepted?
    ensures forall c: nat :: AcceptedAt(log + [e], c) <==> AcceptedAt(log, c) || c == |log|
    ensures forall c: nat :: AcceptedAt(log, c) ==> (log + [e])[c] == log[c]
    ensures forall c: nat, r :: CardOf(log + [e], c, r) <==> CardOf(log, c, r) || (c == |log| && e.card == Some(r))
  {
  }

  lemma FreshNotReversed(s: State, r: string)
    requires Inverse(s) && OwnersOk(s) && FreshRequest(s.log, r)
    ensures r !in s.reverse
  {
    assert r in s.reverse ==> CardOf(s.log, s.owner[KeyOf(s.reverse[r].id)], r);
  }

  lemma AcceptInverse(s: State, id: Id, kind: RequestKind, card: Option<string>)
    requires Inverse(s) && OwnersOk(s) && KeyOf(id) !in s.owner
    requires card.Some? ==> FreshRequest(s.log, card.value)
    ensures Inverse(AcceptStep(s, id, kind, card))
  {
    if card.Some? { FreshNotReversed(s, card.value); }
  }

  lemma AcceptWork(s: State, id: Id, kind: RequestKind, card: Option<string>)
    requires WorkOk(s) && KeyOf(id) !in s.owner
    ensures WorkOk(AcceptStep(s, id, kind, card))
  {
    AcceptExtends(s.log, Accepted(id, kind, card));
  }

  lemma AcceptOwners(s: State, id: Id, kind: RequestKind, card: Option<string>)
    requires Inverse(s) && OwnersOk(s) && KeyOf(id) !in s.owner
    ensures OwnersOk(AcceptStep(s, id, kind, card))
  {
    AcceptExtends(s.log, Accepted(id, kind, card));
  }

  lemma AcceptUnique(log: seq<Event>, e: Event)
    requires UniqueCards(log) && e.Accepted? && (e.card.Some? ==> FreshRequest(log, e.card.value))
    ensures UniqueCards(log + [e])
  {
    AcceptExtends(log, e);
  }

  lemma AcceptCards(s: State, id: Id, kind: RequestKind, card: Option<string>)
    requires CardsOk(s) && OwnersOk(s) && ResolvedWereCards(s) && KeyOf(id) !in s.owner
    requires card.Some? ==> FreshRequest(s.log, card.value)
    ensures CardsOk(AcceptStep(s, id, kind, card))
  {
    var s', e := AcceptStep(s, id, kind, card), Accepted(id, kind, card);
    AcceptExtends(s.log, e);
    forall c: nat | c < |s'.log| ensures CardOk(s', c) {
      if AcceptedAt(s'.log, c) && s'.log[c].card.Some? {
        CountAppend(s.log, e, s'.log[c].card.value, 0);
        if c < |s.log| { assert CardOk(s, c); }
      }
    }
  }

  lemma AcceptKeeps(s: State, id: Id, kind: RequestKind, card: Option<string>)
    requires Inv(s) && (card.Some? ==> FreshRequest(s.log, card.value))
    ensures Inv(AcceptStep(s, id, kind, card))
  {
    if KeyOf(id) !in s.owner {
      var s', e := AcceptStep(s, id, kind, card), Accepted(id, kind, card);
      AcceptInverse(s, id, kind, card);
      AcceptWork(s, id, kind, card);
      AcceptOwners(s, id, kind, card);
      AcceptUnique(s.log, e);
      AcceptCards(s, id, kind, card);
      AcceptCounting(s, id, kind, card);
    }
  }

  lemma AcceptCounting(s: State, id: Id, kind: RequestKind, card: Option<string>)
    requires ResponsesOk(s) && ResolvedWereCards(s) && KeyOf(id) !in s.owner
    ensures ResponsesOk(AcceptStep(s, id, kind, card)) && ResolvedWereCards(AcceptStep(s, id, kind, card))
  {
    var s', e := AcceptStep(s, id, kind, card), Accepted(id, kind, card);
    assert s'.work.Keys == s.work.Keys + {|s.log|};
    forall c: nat ensures Responses(s'.log, c) <= if AcceptedAt(s'.log, c) && c !in s'.work then 1 else 0 {
      CountAppend(s.log, e, "", c);
      assert Responses(s.log, c) <= if AcceptedAt(s.log, c) && c !in s.work then 1 else 0;
    }
    forall r | FreshRequest(s'.log, r) ensures Resolves(s'.log, r) == 0 {
      CountAppend(s.log, e, r, 0);
      FreshBefore(s.log, e, r);
    }
  }

  lemma FreshBefore(log: seq<Event>, e: Event, r: string)
    requires FreshRequest(log + [e], r)
    ensures FreshRequest(log, r)
  {
    forall k: nat | k < |log| ensures !CardOf(log, k, r) { assert !CardOf(log + [e], k, r); }
  }

  lemma SettleKeeps(s: State, call: nat, r: Bridge.Result)
    requires Inv(s)
    ensures Inv(SettleStep(s, call, r))
  {
    var s' := SettleStep(s, call, r);
    assert s'.work.Keys == s.work.Keys;
    forall c: nat | c < |s'.log| ensures CardOk(s', c) { assert CardOk(s, c); }
  }

  lemma FinishExtends(s: State, call: nat, sendOk: bool)
    requires Enabled(s, Finish(call, sendOk))
    ensures Extends(s.log, FinishStep(s, call, sendOk).log)
  {
  }

  lemma FinishOwners(s: State, call: nat, sendOk: bool)
    requires OwnersOk(s) && WorkOk(s) && Enabled(s, Finish(call, sendOk))
    ensures OwnersOk(FinishStep(s, call, sendOk)) && WorkOk(FinishStep(s, call, sendOk))
  {
    FinishExtends(s, call, sendOk);
    ExtendsSame(s.log, FinishStep(s, call, sendOk).log);
  }

  lemma FinishCard(s: State, call: nat, sendOk: bool, c: nat)
    requires CardOk(s, c) && OwnersOk(s) && Inverse(s) && UniqueCards(s.log) && Enabled(s, Finish(call, sendOk))
    ensures CardOk(FinishStep(s, call, sendOk), c)
  {
    var s' := FinishStep(s, call, sendOk);
    FinishExtends(s, call, sendOk);
    ExtendsSame(s.log, s'.log);
    var key := Key(s.log, call);
    if key in s.owner && AcceptedAt(s.log, c) && s.log[c].card.Some? {
      var r := s.log[c].card.value;
      FinishCounts(s, call, sendOk, r, 0);
      assert CardOf(s.log, c, r);
      assert r in Found(s, key) ==> CardOf(s.log, s.owner[key], r);
      assert r in Found(s, key) <==> c == s.owner[key];
    }
  }

  lemma FinishCounting(s: State, call: nat, sendOk: bool)
    requires ResponsesOk(s) && ResolvedWereCards(s) && OwnersOk(s) && Inverse(s) && Enabled(s, Finish(call, sendOk))
    ensures ResponsesOk(FinishStep(s, call, sendOk)) && ResolvedWereCards(FinishStep(s, call, sendOk))
  {
    var s', key := FinishStep(s, call, sendOk), Key(s.log, call);
    FinishExtends(s, call, sendOk);
    ExtendsSame(s.log, s'.log);
    forall c: nat ensures Responses(s'.log, c) <= if AcceptedAt(s'.log, c) && c !in s'.work then 1 else 0 {
      FinishCounts(s, call, sendOk, "", c);
      assert Responses(s.log, c) <= if AcceptedAt(s.log, c) && c !in s.work then 1 else 0;
    }
    forall r | FreshRequest(s'.log, r) ensures Resolves(s'.log, r) == 0 {
      FinishCounts(s, call, sendOk, r, 0);
      assert key in s.forward ==> CardOf(s.log, s.owner[key], s.forward[key]);
    }
  }

  lemma FinishKeeps(s: State, call: nat, sendOk: bool)
    requires Inv(s) && Enabled(s, Finish(call, sendOk))
    ensures Inv(FinishStep(s, call, sendOk))
  {
    var s' := FinishStep(s, call, sendOk);
    FinishExtends(s, call, sendOk);
    ExtendsSame(s.log, s'.log);
    FinishOwners(s, call, sendOk);
    FinishCounting(s, call, sendOk);
    FinishInverse(s, call, sendOk);
    forall c: nat | c < |s'.log| ensures CardOk(s', c) {
      if c < |s.log| { FinishCard(s, call, sendOk, c); }
    }
  }

  lemma FinishInverse(s: State, call: nat, sendOk: bool)
    requires Inverse(s) && Enabled(s, Finish(call, sendOk))
    ensures Inverse(FinishStep(s, call, sendOk))
  {
  }

  lemma ExitCard(s: State, c: nat)
    requires !s.suppressed && CardOk(s, c) && OwnersOk(s) && Inverse(s) && UniqueCards(s.log)
    ensures CardOk(ExitStep(s), c)
  {
    var e := ExitDenied(Requests(s));
    ExtendsSame(s.log, s.log + [e]);
    if AcceptedAt(s.log, c) && s.log[c].card.Some? {
      var r := s.log[c].card.value;
      CountAppend(s.log, e, r, 0);
      assert CardOf(s.log, c, r);
      if r in Requests(s) {
        var k :| k in s.forward && s.forward[k] == r;
        assert CardOf(s.log, s.owner[k], r);
      }
    }
  }

  lemma ExitCounting(s: State)
    requires !s.suppressed && ResponsesOk(s) && ResolvedWereCards(s) && OwnersOk(s) && Inverse(s)
    ensures ResponsesOk(ExitStep(s)) && ResolvedWereCards(ExitStep(s))
  {
    var s', e := ExitStep(s), ExitDenied(Requests(s));
    ExtendsSame(s.log, s.log + [e]);
    assert s'.work.Keys == s.work.Keys;
    forall c: nat ensures Responses(s'.log, c) == Responses(s.log, c) { CountAppend(s.log, e, "", c); }
    forall r | FreshRequest(s'.log, r) ensures Resolves(s'.log, r) == 0 {
      CountAppend(s.log, e, r, 0);
      assert forall k :: k in s.forward ==> CardOf(s.log, s.owner[k], s.forward[k]);
    }
  }

  lemma ExitKeeps(s: State)
    requires Inv(s)
    ensures Inv(ExitStep(s))
  {
    if !s.suppressed {
      var s' := ExitStep(s);
      ExtendsSame(s.log, s.log + [ExitDenied(Requests(s))]);
      ExitCounting(s);
      forall r ensures r !in s'.reverse { assert r in s.reverse ==> r in Requests(s); }
      forall c: nat | c < |s'.log| ensures CardOk(s', c) {
        if c < |s.log| { ExitCard(s, c); }
      }
    }
  }

  // ---------------------------------------------------------------------------------------------
  // Whole runs.
  // ---------------------------------------------------------------------------------------------

  lemma StepKeeps(s: State, t: Step)
    requires Inv(s) && Enabled(s, t)
    ensures Inv(Next(s, t))
  {
    match t
    case Accept(id, kind, card) => AcceptKeeps(s, id, kind, card);
    case BridgeSettles(call, r) => SettleKeeps(s, call, r);
    case Finish(call, sendOk) => FinishKeeps(s, call, sendOk);
    case ChildExit => ExitKeeps(s);
  }

  lemma {:induction false} RunKeeps(s: State, ts: seq<Step>)
    requires Inv(s) && ValidRun(s, ts)
    ensures Inv(Run(s, ts))
    decreases |ts|
  {
    if ts != [] {
      StepKeeps(s, ts[0]);
      RunKeeps(Next(s, ts[0]), ts[1..]);
    }
  }

  lemma StartOk()
    ensures Inv(Start)
  {
  }

  /** JSON-RPC keys and request ids correspond one to one, whatever happened. */
  lemma MapsAreInverse(ts: seq<Step>, key: string, request: string)
    requires ValidRun(Start, ts)
    ensures var s := Run(Start, ts);
      (key in s.forward && s.forward[key] == request) <==> (request in s.reverse && KeyOf(s.reverse[request].id) == key)
  {
    StartOk();
    RunKeeps(Start, ts);
  }

  /** A card has at most one resolved event, and exactly one as soon as its request's continuation has run. */
  lemma CardResolvedOnce(ts: seq<Step>, call: nat, request: string)
    requires ValidRun(Start, ts) && CardOf(Run(Start, ts).log, call, request)
    ensures var s := Run(Start, ts);
      Resolves(s.log, request) <= 1 && (call !in s.work ==> Resolves(s.log, request) == 1)
  {
    StartOk();
    RunKeeps(Start, ts);
    assert CardOk(Run(Start, ts), call);
  }

  /** An accepted request has at most one response, and none before its continuation runs. */
  lemma AtMostOneResponse(ts: seq<Step>, call: nat)
    requires ValidRun(Start, ts)
    ensures var s := Run(Start, ts);
      Responses(s.log, call) <= 1 && (call in s.work ==> Responses(s.log, call) == 0)
  {
    StartOk();
    RunKeeps(Start, ts);
  }

  lemma StepSilent(s: State, t: Step, call: nat)
    requires s.suppressed && Enabled(s, t)
    ensures Next(s, t).suppressed && Responses(Next(s, t).log, call) == Responses(s.log, call)
  {
    match t
    case Accept(id, kind, card) => CountAppend(s.log, Accepted(id, kind, card), "", call);
    case Finish(c, sendOk) => FinishCounts(s, c, sendOk, "", call);
    case _ =>
  }

  /** Once the codex process has exited, nothing is ever sent to it again. */
  lemma {:induction false} SilentAfterExit(s: State, ts: seq<Step>, call: nat)
    requires s.suppressed && ValidRun(s, ts)
    ensures Run(s, ts).suppressed && Responses(Run(s, ts).log, call) == Responses(s.log, call)
    decreases |ts|
  {
    if ts != [] {
      StepSilent(s, ts[0], call);
      SilentAfterExit(Next(s, ts[0]), ts[1..], call);
    }
  }

  // ---------------------------------------------------------------------------------------------
  // While the codex process lives, every request is answered.
  // ---------------------------------------------------------------------------------------------

  /** Nothing went wrong so far: the process lives, whatever is unfinished owns its key, and each finished request has its one response. */
  ghost predicate Smooth(s: State) {
    && !s.suppressed
    && (forall c :: c in s.work ==> Owned(s, c))
    && (forall c: nat :: Responses(s.log, c) == if AcceptedAt(s.log, c) && c !in s.work then 1 else 0)
  }

  /** The process does not exit, and sending works. */
  predicate SmoothStep(t: Step) {
    !t.ChildExit? && (t.Finish? ==> t.sendOk)
  }

  lemma SmoothAccept(s: State, id: Id, kind: RequestKind, card: Option<string>)
    requires Smooth(s)
    ensures Smooth(AcceptStep(s, id, kind, card))
  {
    if KeyOf(id) !in s.owner {
      var s', e := AcceptStep(s, id, kind, card), Accepted(id, kind, card);
      AcceptExtends(s.log, e);
      assert s'.work.Keys == s.work.Keys + {|s.log|};
      forall c: nat ensures Responses(s'.log, c) == Responses(s.log, c) { CountAppend(s.log, e, "", c); }
      assert forall c :: c in s.work ==> Owned(s, c) && Owned(s', c);
    }
  }

  lemma SmoothFinish(s: State, call: nat)
    requires Smooth(s) && Enabled(s, Finish(call, true))
    ensures Smooth(FinishStep(s, call, true))
  {
    var s' := FinishStep(s, call, true);
    FinishExtends(s, call, true);
    ExtendsSame(s.log, s'.log);
    assert Owned(s, call);
    forall c: nat ensures Responses(s'.log, c) == Responses(s.log, c) + if c == call then 1 else 0 {
      FinishCounts(s, call, true, "", c);
    }
    forall c | c in s'.work ensures Owned(s', c) { assert Owned(s, c); }
  }

  lemma SmoothKeeps(s: State, t: Step)
    requires Smooth(s) && Enabled(s, t) && SmoothStep(t)
    ensures Smooth(Next(s, t))
  {
    match t
    case Accept(id, kind, card) => SmoothAccept(s, id, kind, card);
    case BridgeSettles(call, r) =>
      var s' := SettleStep(s, call, r);
      assert s'.work.Keys == s.work.Keys;
      assert forall c :: c in s.work ==> Owned(s, c) && Owned(s', c);
    case Finish(call, _) => SmoothFinish(s, call);
  }

  lemma {:induction false} SmoothRunKeeps(s: State, ts: seq<Step>)
    requires Smooth(s) && ValidRun(s, ts) && forall k :: 0 <= k < |ts| ==> SmoothStep(ts[k])
    ensures Smooth(Run(s, ts))
    decreases |ts|
  {
    if ts != [] {
      SmoothKeeps(s, ts[0]);
      SmoothRunKeeps(Next(s, ts[0]), ts[1..]);
    }
  }

  /** As long as the codex process lives and sending works, each request has exactly one response once its continuation has run. */
  lemma AnsweredExactlyOnce(ts: seq<Step>, call: nat)
    requires ValidRun(Start, ts) && forall k :: 0 <= k < |ts| ==> SmoothStep(ts[k])
    requires AcceptedAt(Run(Start, ts).log, call) && call !in Run(Start, ts).work
    ensures Responses(Run(Start, ts).log, call) == 1
  {
    SmoothRunKeeps(Start, ts);
  }

  /** The response carries the request's own id and a body codex reads as the bridge's decision; the resolved event carries the same decision. */
  lemma FinishTellsDecision(s: State, call: nat)
    requires Inv(s) && !s.suppressed && Owned(s, call) && Enabled(s, Finish(call, true))
    ensures var s', d := FinishStep(s, call, true), DecisionOf(s.work[call].result);
      var told := if d.Some? then d.value else Bridge.Deny;
      && |s'.log| > |s.log| && s'.log[|s.log|] == Responded(call, s.log[call].id, ResultBody(s.log[call].kind, d))
      && (!s.log[call].kind.Permissions? ==> ReadBody(s.log[call].kind, ResultBody(s.log[call].kind, d)) == told)
      && (s.log[call].card.Some? ==>
            && |s'.log| == |s.log| + 2
            && s'.log[|s.log| + 1] == Resolved(s.log[call].card.value, told, s.work[call].result.origin, true, call))
  {
    BodyReadsBack(s.log[call].kind, DecisionOf(s.work[call].result));
    assert s.owner[Key(s.log, call)] == call;
  }

  // ---------------------------------------------------------------------------------------------
  // Whose resolved event.
  // ---------------------------------------------------------------------------------------------

  /**
   The order in which the runner calls the layer: the exit handler cancels and, in the same turn, stops
   listening to the process (apps/sidecar/src/codex-runner.ts:360-372 and :678-683), so nothing is accepted after exit.
   */
  predicate RunnerStep(s: State, t: Step) {
    t.Accept? ==> !s.suppressed
  }

  predicate RunnerRun(s: State, ts: seq<Step>)
    decreases |ts|
  {
    ts != [] ==> Enabled(s, ts[0]) && RunnerStep(s, ts[0]) && RunnerRun(Next(s, ts[0]), ts[1..])
  }

  /** While the process lives whatever is unfinished owns its key; afterwards no key is in flight. */
  predicate OwnWork(s: State) {
    if s.suppressed then s.owner == map[] else forall c :: c in s.work ==> Owned(s, c)
  }

  /** Every resolved event was emitted for the card of the request whose continuation ran. */
  predicate OwnEvents(log: seq<Event>) {
    forall k :: 0 <= k < |log| && log[k].Resolved? ==> CardOf(log, log[k].cause, log[k].request)
  }

  lemma OwnAccept(s: State, id: Id, kind: RequestKind, card: Option<string>)
    requires !s.suppressed && OwnWork(s) && OwnEvents(s.log)
    ensures OwnWork(AcceptStep(s, id, kind, card)) && OwnEvents(AcceptStep(s, id, kind, card).log)
  {
    var s' := AcceptStep(s, id, kind, card);
    AcceptExtends(s.log, Accepted(id, kind, card));
    forall c | c in s'.work ensures Owned(s', c) {
      if c in s.work { assert Owned(s, c); }
    }
  }

  lemma OwnFinish(s: State, call: nat, sendOk: bool)
    requires OwnersOk(s) && OwnWork(s) && OwnEvents(s.log) && Enabled(s, Finish(call, sendOk))
    ensures OwnWork(FinishStep(s, call, sendOk)) && OwnEvents(FinishStep(s, call, sendOk).log)
  {
    var s' := FinishStep(s, call, sendOk);
    FinishExtends(s, call, sendOk);
    ExtendsSame(s.log, s'.log);
    if !s.suppressed {
      assert Owned(s, call);
      forall c | c in s'.work ensures Owned(s', c) { assert Owned(s, c); }
    }
  }

  lemma OwnSettle(s: State, call: nat, r: Bridge.Result)
    requires OwnWork(s)
    ensures OwnWork(SettleStep(s, call, r))
  {
    var s' := SettleStep(s, call, r);
    assert s'.work.Keys == s.work.Keys;
    assert !s.suppressed ==> forall c :: c in s.work ==> Owned(s, c) && Owned(s', c);
  }

  lemma OwnStep(s: State, t: Step)
    requires Inv(s) && OwnWork(s) && OwnEvents(s.log) && Enabled(s, t) && RunnerStep(s, t)
    ensures OwnWork(Next(s, t)) && OwnEvents(Next(s, t).log)
  {
    match t
    case Accept(id, kind, card) => OwnAccept(s, id, kind, card);
    case BridgeSettles(call, r) => OwnSettle(s, call, r);
    case Finish(call, sendOk) => OwnFinish(s, call, sendOk);
    case ChildExit => ExtendsSame(s.log, s.log + [ExitDenied(Requests(s))]);
  }

  lemma {:induction false} OwnRun(s: State, ts: seq<Step>)
    requires Inv(s) && OwnWork(s) && OwnEvents(s.log) && RunnerRun(s, ts)
    ensures ValidRun(s, ts) && OwnEvents(Run(s, ts).log)
    decreases |ts|
  {
    if ts != [] {
      StepKeeps(s, ts[0]);
      OwnStep(s, ts[0]);
      OwnRun(Next(s, ts[0]), ts[1..]);
    }
  }

  /** In every run the runner can produce, whatever the order of answers, continuations and exit, every resolved event is for its own request's card. */
  lemma ResolvedIsOwn(ts: seq<Step>)
    requires RunnerRun(Start, ts)
    ensures ValidRun(Start, ts) && OwnEvents(Run(Start, ts).log)
  {
    StartOk();
    OwnRun(Start, ts);
  }

  // ---------------------------------------------------------------------------------------------
  // The bridge object.
  // ---------------------------------------------------------------------------------------------

  class CodexApprovalBridge {
    var inFlight: set<string>
    var forward: map<string, string>
    var reverse: map<string, Target>
    var suppressed: bool
    // Which request put a key in flight, what is still to happen, and the record.
    ghost var owner: map<string, nat>
    ghost var work: map<nat, Work>
    ghost var log: seq<Event>

    constructor ()
      ensures Valid() && View() == Start
    {
      inFlight, forward, reverse, suppressed := {}, map[], map[], false;
      owner, work, log := map[], map[], [];
    }

    ghost predicate Valid()
      reads this
    {
      inFlight == owner.Keys
    }

    ghost function View(): State
      reads this
    {
      State(owner, forward, reverse, suppressed, work, log)
    }

    /** An approval request arrives; `card` is the request id of its card, if the bridge showed one. */
    method HandleServerRequest(id: Id, kind: RequestKind, card: Option<string>) returns (ignored: bool)
      requires Valid()
      modifies this
      ensures Valid() && View() == AcceptStep(old(View()), id, kind, card)
      ensures ignored <==> KeyOf(id) in old(inFlight)
    {
      var key := KeyOf(id);
      if key in inFlight {
        return true;
      }
      inFlight := inFlight + {key};
      if card.Some? {
        forward := forward[key := card.value];
        reverse := reverse[card.value := Target(id, kind)];
        work := work[|log| := AtBridge(card.value)];
      } else {
        work := work[|log| := Due(Bridge.AutoAllow)];
      }
      owner := owner[key := |log|];
      log := log + [Accepted(id, kind, card)];
      return false;
    }

    /** The continuation of one request, with the bridge's result for it. */
    method FinishRequest(ghost call: nat, id: Id, kind: RequestKind, result: Bridge.Result, sendOk: bool)
      returns (response: Option<Json>, resolved: Option<string>)
      requires Valid() && Enabled(View(), Finish(call, sendOk))
      requires log[call].id == id && log[call].kind == kind && work[call].result == result
      modifies this
      ensures Valid() && View() == FinishStep(old(View()), call, sendOk)
      ensures response == if KeyOf(id) in old(inFlight) && !old(suppressed) && sendOk then Some(ResultBody(kind, DecisionOf(result))) else None
      ensures resolved == if KeyOf(id) in old(inFlight) && KeyOf(id) in old(forward) then Some(old(forward)[KeyOf(id)]) else None
    {
      var key, decision := KeyOf(id), DecisionOf(result);
      response, resolved := None, None;
      work := work - {call};
      if key !in inFlight {
        return;
      }
      log := log + FinishEvents(old(View()), call, sendOk);
      owner := owner - {key};
      if key in forward {
        resolved := Some(forward[key]);
      }
      var found := DropKey(key);
      if !suppressed && sendOk {
        response := Some(ResultBody(kind, decision));
      }
    }

    /** Forget one key and, if it has a card, the card's request, which is handed back. */
    method DropKey(key: string) returns (found: set<string>)
      requires key in inFlight
      modifies this`inFlight, this`forward, this`reverse
      ensures found == if key in old(forward) then {old(forward)[key]} else {}
      ensures inFlight == old(inFlight) - {key} && forward == old(forward) - {key} && reverse == old(reverse) - found
    {
      inFlight := inFlight - {key};
      found := {};
      if key in forward {
        found := {forward[key]};
        reverse := reverse - found;
      }
      forward := forward - {key};
    }

    /** The codex process exited: every request in flight is denied, in turn. */
    method CancelInFlight() returns (denied: set<string>)
      requires Valid() && Inverse(View())
      modifies this
      ensures Valid() && View() == ExitStep(old(View()))
      ensures denied == if old(suppressed) then {} else Requests(old(View()))
    {
      denied := {};
      if suppressed {
        return;
      }
      suppressed := true;
      ghost var dropped := {};
      while inFlight != {}
        invariant inFlight == old(inFlight) - dropped
        invariant forward == old(forward) - dropped
        invariant denied == Among(old(forward), dropped)
        invariant reverse == old(reverse) - denied
        invariant suppressed && owner == old(owner) && work == old(work) && log == old(log)
        decreases inFlight
      {
        var key :| key in inFlight;
        AmongAdd(old(forward), dropped, key);
        var found := DropKey(key);
        denied := denied + found;
        dropped := dropped + {key};
      }
      AmongAll(old(forward), dropped);
      owner := map[];
      work := ExitStep(old(View())).work;
      log := ExitStep(old(View())).log;
    }
  }

  ghost function Among(forward: map<string, string>, keys: set<string>): set<string> {
    set k | k in forward && k in keys :: forward[k]
  }

  lemma AmongAdd(forward: map<string, string>, keys: set<string>, key: string)
    ensures Among(forward, keys + {key}) == Among(forward, keys) + if key in forward then {forward[key]} else {}
  {
    forall r | r in Among(forward, keys) ensures r in Among(forward, keys + {key}) {
      var k :| k in forward && k in keys && forward[k] == r;
      assert k in keys + {key};
    }
  }

  lemma AmongAll(forward: map<string, string>, keys: set<string>)
    requires forward.Keys <= keys
    ensures Among(forward, keys) == (set k | k in forward :: forward[k]) && forward - keys == map[]
  {
  }
}
