/**
 The timeout envelope of a relay round trip: a waiter is registered under a request id with a timer,
 and settled by whichever comes first of the answer, an abort, the timer and shutdown.

 A waiter is numbered by its registration.  `SettledOnce` holds whatever ids are used; the shutdown
 guarantee is `ShutdownLeavesNoneIff`: it holds exactly when no id is registered while still pending
 (`DuplicateOutlivesShutdown` shows what happens otherwise).
 */
module PendingRoundTrips {

  datatype State = State(
    pending: map<string, nat>,
    // The timers that have neither fired nor been cleared, each with the id it was set for.
    armed: map<nat, string>,
    settled: multiset<nat>,
    // The id each waiter was registered under: waiter w is the w-th registration.
    ids: seq<string>)

  datatype Step = Register(id: string) | Answer(id: string) | Fire(waiter: nat) | RejectAll

  function RegisterStep(s: State, id: string): State {
    State(s.pending[id := |s.ids|], s.armed[|s.ids| := id], s.settled, s.ids + [id])
  }

  /** An answer or an abort: the waiter under the id, if there is one, is settled and its timer cleared. */
  function AnswerStep(s: State, id: string): State {
    if id in s.pending
    then s.(pending := s.pending - {id}, armed := s.armed - {s.pending[id]}, settled := s.settled + multiset{s.pending[id]})
    else s
  }

  /** A timer fires: it deletes whatever is pending under its id, and settles its own waiter. */
  function FireStep(s: State, w: nat): State
    requires w in s.armed
  {
    s.(pending := s.pending - {s.armed[w]}, armed := s.armed - {w}, settled := s.settled + multiset{w})
  }

  function Waiters(s: State): set<nat> {
    set id | id in s.pending :: s.pending[id]
  }

  function RejectAllStep(s: State): State {
    s.(pending := map[], armed := s.armed - Waiters(s), settled := s.settled + multiset(Waiters(s)))
  }

  predicate Enabled(s: State, t: Step) {
    t.Fire? ==> t.waiter in s.armed
  }

  function Next(s: State, t: Step): State
    requires Enabled(s, t)
  {
    match t
    case Register(id) => RegisterStep(s, id)
    case Answer(id) => AnswerStep(s, id)
    case Fire(w) => FireStep(s, w)
    case RejectAll => RejectAllStep(s)
  }

  const Start := State(map[], map[], multiset{}, [])

  /** One more settlement, of this waiter, whose timer is disarmed; other waiters are as before. */
  predicate SettlesOnly(s: State, t: State, w: nat) {
    && t.settled == s.settled + multiset{w} && t.armed == s.armed - {w} && t.ids == s.ids
  }

  /**
   What each step does: registering adds a waiter with an armed timer, which an answer for its id finds;
   an answer settles the waiter found, if any; a timer settles its own waiter and forgets its id; and
   rejecting settles every waiter that an answer could still find.
   */
  lemma StepExact(s: State, t: Step)
    requires Enabled(s, t)
    ensures var s', n := Next(s, t), |s.ids|;
      match t
      case Register(id) =>
        && s'.ids == s.ids + [id] && s'.settled == s.settled
        && n in s'.armed && s'.armed[n] == id && (forall w :: w != n ==> (w in s'.armed <==> w in s.armed) && (w in s.armed ==> s'.armed[w] == s.armed[w]))
        && id in s'.pending && s'.pending[id] == n && (forall o :: o != id ==> (o in s'.pending <==> o in s.pending) && (o in s.pending ==> s'.pending[o] == s.pending[o]))
      case Answer(id) =>
        if id in s.pending then SettlesOnly(s, s', s.pending[id]) && s'.pending == s.pending - {id} else s' == s
      case Fire(w) => SettlesOnly(s, s', w) && s'.pending == s.pending - {s.armed[w]}
      case RejectAll =>
        && s'.pending == map[] && s'.ids == s.ids
        && forall w: nat ::
             var found := exists id :: id in s.pending && s.pending[id] == w;
             && s'.settled[w] == s.settled[w] + (if found then 1 else 0)
             && (w in s'.armed <==> w in s.armed && !found)
  {
    if t.RejectAll? {
      forall w: nat ensures w in Waiters(s) <==> exists id :: id in s.pending && s.pending[id] == w { }
    }
  }

  predicate ValidRun(s: State, ts: seq<Step>)
    decreases |ts|
  {
    ts != [] ==> Enabled(s, ts[0]) && ValidRun(Next(s, ts[0]), ts[1..])
  }

  function Run(s: State, ts: seq<Step>): State
    requires ValidRun(s, ts)
    decreases |ts|
  {
    if ts == [] then s else Run(Next(s, ts[0]), ts[1..])
  }

  /** Every registered waiter is settled once, or its timer is armed; what is pending has its timer armed for that id. */
  ghost predicate Inv(s: State) {
    && (forall w: nat :: s.settled[w] + (if w in s.armed then 1 else 0) == if w < |s.ids| then 1 else 0)
    && (forall w :: w in s.armed ==> w < |s.ids| && s.armed[w] == s.ids[w])
    && (forall id :: id in s.pending ==> s.pending[id] in s.armed && s.armed[s.pending[id]] == id)
  }

  lemma StepKeeps(s: State, t: Step)
    requires Inv(s) && Enabled(s, t)
    ensures Inv(Next(s, t))
  {
    if t.RejectAll? {
      var s' := Next(s, t);
      forall w: nat ensures s'.settled[w] + (if w in s'.armed then 1 else 0) == if w < |s'.ids| then 1 else 0 {
        if w in Waiters(s) { assert w in s.armed; }
      }
    } else {
      assert forall w: nat :: w < |s.ids| || w !in s.armed;
    }
  }

  lemma {:induction false} RunKeeps(s: State, ts: seq<Step>)
    requires Inv(s) && ValidRun(s, ts)
    ensures Inv(Run(s, ts))
    decreases |ts|
  {
    if ts != [] {
      StepKeeps(s, ts[0]);
      RunKeeps(Next(s, ts[0]), ts[1..]);
    }
  }

  /** In every run a registered waiter is settled at most once, and until then its timer is armed: it never hangs. */
  lemma SettledOnce(ts: seq<Step>, w: nat)
    requires ValidRun(Start, ts) && w < |Run(Start, ts).ids|
    ensures var s := Run(Start, ts);
      s.settled[w] <= 1 && (s.settled[w] == 0 <==> w in s.armed)
  {
    RunKeeps(Start, ts);
  }

  /**
   In every run, once a waiter is settled, whatever settled it, its timer cannot fire and an answer or
   abort for its id changes nothing, as long as the id was registered only for it.
   */
  lemma LateAnswerDoesNothing(ts: seq<Step>, w: nat)
    requires ValidRun(Start, ts) && w < |Run(Start, ts).ids| && Run(Start, ts).settled[w] >= 1
    requires forall x :: 0 <= x < |Run(Start, ts).ids| && Run(Start, ts).ids[x] == Run(Start, ts).ids[w] ==> x == w
    ensures var s := Run(Start, ts);
      AnswerStep(s, s.ids[w]) == s && !Enabled(s, Fire(w))
  {
    RunKeeps(Start, ts);
    var s := Run(Start, ts);
    assert w !in s.armed;
  }

  /** Each waiter whose timer is armed is the one pending under its id. */
  predicate Paired(s: State) {
    forall w :: w in s.armed ==> s.armed[w] in s.pending && s.pending[s.armed[w]] == w
  }

  /** Shutdown leaves no waiter outstanding if and only if every outstanding waiter is still pending under its own id. */
  lemma ShutdownLeavesNoneIff(s: State)
    requires Inv(s)
    ensures RejectAllStep(s).armed == map[] <==> Paired(s)
  {
    if Paired(s) {
      forall w | w in s.armed ensures w in Waiters(s) { assert s.armed[w] in s.pending; }
      assert RejectAllStep(s).armed == map[];
    } else {
      var w :| w in s.armed && !(s.armed[w] in s.pending && s.pending[s.armed[w]] == w);
      assert w !in Waiters(s);
      assert w in RejectAllStep(s).armed;
    }
  }

  /** Registering only ids that are not pending keeps every outstanding waiter pending under its own id. */
  lemma FreshIdsStayPaired(s: State, t: Step)
    requires Inv(s) && Paired(s) && Enabled(s, t)
    requires t.Register? ==> t.id !in s.pending
    ensures Paired(Next(s, t))
  {
    if t.RejectAll? { ShutdownLeavesNoneIff(s); }
    assert forall w: nat :: w < |s.ids| || w !in s.armed;
  }

  predicate FreshRun(s: State, ts: seq<Step>)
    decreases |ts|
  {
    ts != [] ==> Enabled(s, ts[0]) && (ts[0].Register? ==> ts[0].id !in s.pending) && FreshRun(Next(s, ts[0]), ts[1..])
  }

  lemma {:induction false} FreshRunPaired(s: State, ts: seq<Step>)
    requires Inv(s) && Paired(s) && FreshRun(s, ts)
    ensures ValidRun(s, ts) && Inv(Run(s, ts)) && Paired(Run(s, ts))
    decreases |ts|
  {
    if ts != [] {
      StepKeeps(s, ts[0]);
      FreshIdsStayPaired(s, ts[0]);
      FreshRunPaired(Next(s, ts[0]), ts[1..]);
    }
  }

  /** With fresh ids, shutdown at any moment settles every waiter, each exactly once over the whole run. */
  lemma ShutdownSettlesAll(ts: seq<Step>, w: nat)
    requires FreshRun(Start, ts)
    ensures ValidRun(Start, ts)
    ensures var s := RejectAllStep(Run(Start, ts));
      s.pending == map[] && s.armed == map[] && (w < |s.ids| ==> s.settled[w] == 1)
  {
    FreshRunPaired(Start, ts);
    var s := Run(Start, ts);
    ShutdownLeavesNoneIff(s);
    StepKeeps(s, RejectAll);
  }

  /** Registering an id that is still pending leaves the first waiter outstanding after shutdown. */
  lemma DuplicateOutlivesShutdown(s: State, id: string)
    requires Inv(s) && id in s.pending
    ensures s.pending[id] in RejectAllStep(RegisterStep(s, id)).armed
  {
    var w, d := s.pending[id], RegisterStep(s, id);
    StepKeeps(s, Register(id));
    forall x | x in d.pending ensures d.pending[x] != w { assert d.armed[d.pending[x]] == x; }
    assert w !in Waiters(d);
  }

  // ---------------------------------------------------------------------------------------------
  // The envelope object.
  // ---------------------------------------------------------------------------------------------

  class RoundTrips {
    var pending: map<string, nat>
    var armed: map<nat, string>
    var count: nat
    ghost var settled: multiset<nat>
    ghost var ids: seq<string>

    constructor ()
      ensures Valid() && View() == Start
    {
      pending, armed, count, settled, ids := map[], map[], 0, multiset{}, [];
    }

    ghost predicate Valid()
      reads this
    {
      count == |ids|
    }

    ghost function View(): State
      reads this
    {
      State(pending, armed, settled, ids)
    }

    method RegisterWaiter(id: string) returns (waiter: nat)
      requires Valid()
      modifies this
      ensures Valid() && View() == RegisterStep(old(View()), id) && waiter == old(count)
    {
      waiter := count;
      armed := armed[waiter := id];
      pending := pending[id := waiter];
      count := count + 1;
      ids := ids + [id];
    }

    /** The waiter to hand the answer to, if the id is pending. */
    method SettleWaiter(id: string) returns (known: bool, waiter: nat)
      requires Valid()
      modifies this
      ensures Valid() && View() == AnswerStep(old(View()), id)
      ensures known <==> id in old(pending)
      ensures known ==> waiter == old(pending)[id]
    {
      if id !in pending {
        return false, 0;
      }
      waiter := pending[id];
      armed := armed - {waiter};
      pending := pending - {id};
      settled := settled + multiset{waiter};
      known := true;
    }

    method OnTimer(waiter: nat)
      requires Valid() && waiter in armed
      modifies this
      ensures Valid() && View() == FireStep(old(View()), waiter)
    {
      pending := pending - {armed[waiter]};
      armed := armed - {waiter};
      settled := settled + multiset{waiter};
    }

    method RejectEverything()
      requires Valid()
      modifies this
      ensures Valid() && View() == RejectAllStep(old(View()))
    {
      var left: set<string> := pending.Keys;
      ghost var rejected: set<nat> := {};
      while left != {}
        invariant left <= pending.Keys && pending == old(pending) && count == old(count) && settled == old(settled) && ids == old(ids)
        invariant rejected == set id | id in pending && id !in left :: pending[id]
        invariant armed == old(armed) - rejected
        decreases left
      {
        var id :| id in left;
        armed := armed - {pending[id]};
        rejected := rejected + {pending[id]};
        left := left - {id};
      }
      assert rejected == Waiters(old(View()));
      settled := settled + multiset(rejected);
      pending := map[];
    }
  }
}
