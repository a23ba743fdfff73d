/**
 The sidecar registry: which connection owns which session, and which sessions are present.

 Connections are objects (`Ref`) with their own session sets; ownership goes to the last claimer; a
 session that loses its owner stays present for a grace period.  Whether a link is open is decided by
 the network, so it changes in steps of its own.  Main results, over every run: `RegistryInvariant`,
 `HelloOwnsExactly`, `LiveSessionIds` (method), `PresenceAlternates` (with links open while
 registered); and, whatever the links do, exactly which steps break it: `ClaimBreaksAlternationIff`,
 `GraceBreaksAlternationIff` and `LinkChangePartsIff`.
 */
module SidecarRegistry {
  import opened Options

  type Link = nat
  type Ref = nat

  datatype Conn = Conn(link: Link, daemonId: string, sessions: set<string>)

  datatype State = State(
    conns: map<Link, Ref>,
    byDaemon: map<string, Ref>,
    owner: map<string, Ref>,
    grace: set<string>,
    // Every connection object ever made: object r is objs[r].
    objs: seq<Conn>,
    open: set<Link>,
    // The presence notifications each session has had.
    told: map<string, seq<bool>>)

  datatype Step =
    | Add(link: Link, daemonId: string)
    | Remove(link: Link)
    | Hello(link: Link, sessions: Option<set<string>>)
    | Observe(link: Link, session: string)
    | GraceEnds(session: string)
    | LinkOpens(link: Link)
    | LinkCloses(link: Link)

  // ---------------------------------------------------------------------------------------------
  // Steps.
  // ---------------------------------------------------------------------------------------------

  predicate WellFormed(s: State) {
    && (forall l :: l in s.conns ==> s.conns[l] < |s.objs|)
    && (forall sid :: sid in s.owner ==> s.owner[sid] < |s.objs|)
  }

  predicate IsLive(s: State, sid: string)
    requires WellFormed(s)
  {
    sid in s.grace || (sid in s.owner && s.objs[s.owner[sid]].link in s.open)
  }

  function Told(s: State, sid: string): seq<bool> {
    if sid in s.told then s.told[sid] else []
  }

  function Notify(s: State, who: set<string>, live: bool): State {
    s.(told := map sid | sid in s.told.Keys + who :: if sid in who then Told(s, sid) + [live] else Told(s, sid))
  }

  function AddStep(s: State, l: Link, daemonId: string): State {
    if l in s.conns then s
    else
      var r := |s.objs|;
      s.(conns := s.conns[l := r], byDaemon := s.byDaemon[daemonId := r], objs := s.objs + [Conn(l, daemonId, {})])
  }

  /** The listed sessions that this connection still owns. */
  function OwnedListed(s: State, r: Ref): set<string>
    requires r < |s.objs|
  {
    set sid | sid in s.objs[r].sessions && sid in s.owner && s.owner[sid] == r
  }

  function RemoveStep(s: State, l: Link): State
    requires WellFormed(s)
  {
    if l !in s.conns then s
    else
      var r := s.conns[l];
      var freed := OwnedListed(s, r);
      s.(conns := s.conns - {l}, byDaemon := s.byDaemon - {s.objs[r].daemonId},
         owner := s.owner - freed, grace := s.grace + freed)
  }

  /** The claimed sessions that were not present and so are announced. */
  function Appearing(s: State, r: Ref, sids: set<string>): set<string>
    requires WellFormed(s) && r < |s.objs|
  {
    if s.objs[r].link in s.open then set sid | sid in sids && !IsLive(s, sid) else {}
  }

  /** Claims of a set of sessions; claims of different sessions do not affect one another. */
  function ClaimAll(s: State, r: Ref, sids: set<string>): State
    requires WellFormed(s) && r < |s.objs|
  {
    var c := s.objs[r];
    Notify(s, Appearing(s, r, sids), true).(
      grace := s.grace - sids,
      objs := s.objs[r := c.(sessions := c.sessions + sids)],
      owner := map sid | sid in s.owner.Keys + sids :: if sid in sids then r else s.owner[sid])
  }

  /** The connection gives up the sessions it owns and no longer announces. */
  function ReleaseAll(s: State, r: Ref, keep: set<string>): State
    requires r < |s.objs|
  {
    Free(s, r, OwnedListed(s, r) - keep)
  }

  function Free(s: State, r: Ref, freed: set<string>): State
    requires r < |s.objs|
  {
    var c := s.objs[r];
    s.(objs := s.objs[r := c.(sessions := c.sessions - freed)], owner := s.owner - freed, grace := s.grace + freed)
  }

  function HelloStep(s: State, l: Link, sessions: Option<set<string>>): State
    requires WellFormed(s)
  {
    if l !in s.conns || sessions.None? then s
    else
      var next := Listed(sessions.value);
      ReleaseAll(ClaimAll(s, s.conns[l], next), s.conns[l], next)
  }

  function GraceStep(s: State, sid: string): State
    requires WellFormed(s)
  {
    var s' := s.(grace := s.grace - {sid});
    if IsLive(s', sid) then s' else Notify(s', {sid}, false)
  }

  /** Daemon ids are new, and only a running timer ends. */
  predicate Enabled(s: State, t: Step) {
    && WellFormed(s)
    && match t
       case Add(_, d) => d !in s.byDaemon
       case GraceEnds(sid) => sid in s.grace
       case _ => true
  }

  function Next(s: State, t: Step): State
    requires Enabled(s, t)
  {
    match t
    case Add(l, d) => AddStep(s, l, d)
    case Remove(l) => RemoveStep(s, l)
    case Hello(l, sids) => HelloStep(s, l, sids)
    case Observe(l, sid) => if l in s.conns then ClaimAll(s, s.conns[l], {sid}) else s
    case GraceEnds(sid) => GraceStep(s, sid)
    case LinkOpens(l) => s.(open := s.open + {l})
    case LinkCloses(l) => s.(open := s.open - {l})
  }

  const Start := State(map[], map[], map[], {}, [], {}, map[])

  predicate ValidRun(s: State, ts: seq<Step>)
    decreases |ts|
  {
    ts != [] ==> Enabled(s, ts[0]) && ValidRun(Next(s, ts[0]), ts[1..])
  }

  function Run(s: State, ts: seq<Step>): State
    requires ValidRun(s, ts)
    decreases |ts|
  {
    if ts == [] then s else Run(Next(s, ts[0]), ts[1..])
  }

  // ---------------------------------------------------------------------------------------------
  // The invariant.
  // ---------------------------------------------------------------------------------------------

  predicate Registered(s: State, r: Ref) {
    r < |s.objs| && s.objs[r].link in s.conns && s.conns[s.objs[r].link] == r
  }

  /** An owned session's connection is registered and lists it. */
  predicate OwnersOk(s: State) {
    forall sid :: sid in s.owner ==> Registered(s, s.owner[sid]) && sid in s.objs[s.owner[sid]].sessions
  }

  /** The daemon index is exactly the registered connections. */
  predicate IndexOk(s: State) {
    && (forall l :: l in s.conns ==> s.conns[l] < |s.objs| && s.objs[s.conns[l]].link == l)
    && (forall l :: l in s.conns ==> DaemonOf(s, s.conns[l]) in s.byDaemon && s.byDaemon[DaemonOf(s, s.conns[l])] == s.conns[l])
    && (forall d :: d in s.byDaemon ==> Registered(s, s.byDaemon[d]) && s.objs[s.byDaemon[d]].daemonId == d)
  }

  function DaemonOf(s: State, r: Ref): string {
    if r < |s.objs| then s.objs[r].daemonId else ""
  }

  predicate Inv(s: State) {
    WellFormed(s) && OwnersOk(s) && IndexOk(s) && s.owner.Keys !! s.grace
  }

  /** Connection objects keep their link and daemon id. */
  predicate SameObjects(s: State, t: State) {
    && |s.objs| == |t.objs|
    && forall r :: 0 <= r < |s.objs| ==> s.objs[r].link == t.objs[r].link && s.objs[r].daemonId == t.objs[r].daemonId
  }

  lemma IndexStays(s: State, t: State)
    requires IndexOk(s) && SameObjects(s, t) && t.conns == s.conns && t.byDaemon == s.byDaemon
    ensures IndexOk(t)
    ensures forall r: nat :: Registered(t, r) <==> Registered(s, r)
  {
    assert forall r: nat :: Registered(t, r) <==> Registered(s, r);
    assert forall r: nat :: DaemonOf(t, r) == DaemonOf(s, r);
  }

  lemma AddKeeps(s: State, l: Link, d: string)
    requires Inv(s) && d !in s.byDaemon
    ensures Inv(AddStep(s, l, d))
  {
    var t := AddStep(s, l, d);
    if l !in s.conns {
      assert forall r: nat :: r < |s.objs| ==> t.objs[r] == s.objs[r];
      assert forall r: nat :: Registered(s, r) ==> Registered(t, r);
      AddOwners(s, t);
      AddIndex(s, l, d);
    }
  }

  lemma AddOwners(s: State, t: State)
    requires OwnersOk(s) && t.owner == s.owner && |s.objs| <= |t.objs|
    requires forall r: nat :: r < |s.objs| ==> t.objs[r] == s.objs[r]
    requires forall r: nat :: Registered(s, r) ==> Registered(t, r)
    ensures OwnersOk(t)
  {
  }

  lemma AddIndex(s: State, l: Link, d: string)
    requires IndexOk(s) && l !in s.conns && d !in s.byDaemon
    ensures IndexOk(AddStep(s, l, d))
  {
    var t := AddStep(s, l, d);
    assert forall r: nat :: r < |s.objs| ==> t.objs[r] == s.objs[r] && DaemonOf(t, r) == DaemonOf(s, r);
    assert forall r: nat :: Registered(s, r) ==> Registered(t, r);
  }

  lemma RemoveKeeps(s: State, l: Link)
    requires Inv(s)
    ensures Inv(RemoveStep(s, l))
    ensures l !in RemoveStep(s, l).conns
  {
    if l in s.conns {
      var t, r := RemoveStep(s, l), s.conns[l];
      forall sid | sid in t.owner ensures Registered(t, t.owner[sid]) && sid in t.objs[t.owner[sid]].sessions {
        assert Registered(s, s.owner[sid]);
      }
      assert forall q: nat :: Registered(t, q) <==> Registered(s, q) && q != r;
    }
  }

  lemma ClaimKeeps(s: State, l: Link, sids: set<string>)
    requires Inv(s) && l in s.conns
    ensures Inv(ClaimAll(s, s.conns[l], sids))
  {
    var r := s.conns[l];
    var t := ClaimAll(s, r, sids);
    assert SameObjects(s, t);
    IndexStays(s, t);
    forall sid | sid in t.owner ensures Registered(t, t.owner[sid]) && sid in t.objs[t.owner[sid]].sessions {
      assert sid !in sids ==> Registered(s, s.owner[sid]) && sid in s.objs[s.owner[sid]].sessions;
    }
  }

  lemma ReleaseKeeps(s: State, l: Link, keep: set<string>)
    requires Inv(s) && l in s.conns
    ensures Inv(ReleaseAll(s, s.conns[l], keep))
  {
    var r := s.conns[l];
    var t := ReleaseAll(s, r, keep);
    assert SameObjects(s, t);
    IndexStays(s, t);
    forall sid | sid in t.owner ensures Registered(t, t.owner[sid]) && sid in t.objs[t.owner[sid]].sessions {
      assert Registered(s, s.owner[sid]) && sid in s.objs[s.owner[sid]].sessions;
    }
  }

  function Listed(sids: set<string>): set<string> {
    set sid | sid in sids && sid != ""
  }

  lemma HelloKeeps(s: State, l: Link, sids: set<string>)
    requires Inv(s) && l in s.conns
    ensures Inv(HelloStep(s, l, Some(sids)))
  {
    ClaimKeeps(s, l, Listed(sids));
    ReleaseKeeps(ClaimAll(s, s.conns[l], Listed(sids)), l, Listed(sids));
  }

  lemma SameTables(s: State, t: State)
    requires Inv(s) && t.objs == s.objs && t.conns == s.conns && t.byDaemon == s.byDaemon && t.owner == s.owner
    requires t.grace <= s.grace
    ensures Inv(t)
  {
    IndexStays(s, t);
  }

  lemma StepKeeps(s: State, t: Step)
    requires Inv(s) && Enabled(s, t)
    ensures Inv(Next(s, t))
  {
    match t
    case Add(l, d) => AddKeeps(s, l, d);
    case Remove(l) => RemoveKeeps(s, l);
    case Hello(l, sids) =>
      if l in s.conns && sids.Some? { HelloKeeps(s, l, sids.value); }
    case Observe(l, sid) => if l in s.conns { ClaimKeeps(s, l, {sid}); }
    case GraceEnds(_) => SameTables(s, Next(s, t));
    case LinkOpens(_) => SameTables(s, Next(s, t));
    case LinkCloses(_) => SameTables(s, Next(s, t));
  }

  lemma {:induction false} RunKeeps(s: State, ts: seq<Step>)
    requires Inv(s) && ValidRun(s, ts)
    ensures Inv(Run(s, ts))
    decreases |ts|
  {
    if ts != [] {
      StepKeeps(s, ts[0]);
      RunKeeps(Next(s, ts[0]), ts[1..]);
    }
  }

  /**
   In every run: an owned session's connection is registered and lists it, no session is both owned
   and in grace, and the daemon index is exactly the registered connections.
   */
  lemma RegistryInvariant(ts: seq<Step>)
    requires ValidRun(Start, ts)
    ensures Inv(Run(Start, ts))
  {
    RunKeeps(Start, ts);
  }

  /** The sessions a connection owns. */
  function OwnedBy(s: State, r: Ref): set<string> {
    set sid | sid in s.owner && s.owner[sid] == r
  }

  /** After a hello with a session list the connection owns exactly that list; other connections lose only what it claimed. */
  lemma HelloOwnsExactly(s: State, l: Link, sids: set<string>, other: Ref)
    requires Inv(s) && l in s.conns && other != s.conns[l]
    ensures var t := HelloStep(s, l, Some(sids));
      && OwnedBy(t, s.conns[l]) == sids - {""}
      && OwnedBy(t, other) == OwnedBy(s, other) - (sids - {""})
  {
    var r := s.conns[l];
    var next := Listed(sids);
    assert next == sids - {""};
    var c := ClaimAll(s, r, next);
    var t := ReleaseAll(c, r, next);
    forall sid ensures sid in OwnedBy(t, r) <==> sid in next {
      if sid in c.owner && c.owner[sid] == r && sid !in next { assert sid in s.objs[r].sessions; }
    }
  }

  /** A removed connection owns nothing, and everything it owned is in grace. */
  lemma RemoveFreesAll(s: State, l: Link)
    requires Inv(s) && l in s.conns
    ensures var t := RemoveStep(s, l);
      OwnedBy(t, s.conns[l]) == {} && OwnedBy(s, s.conns[l]) <= t.grace
  {
  }

  // ---------------------------------------------------------------------------------------------
  // Presence.
  // ---------------------------------------------------------------------------------------------

  /** Notifications start with true and alternate. */
  predicate Alternates(bs: seq<bool>) {
    forall k :: 0 <= k < |bs| ==> bs[k] == (k % 2 == 0)
  }

  /** What the last notification said; nobody told yet means not present. */
  predicate LastTold(bs: seq<bool>) {
    bs != [] && bs[|bs| - 1]
  }

  ghost predicate PresenceOk(s: State)
    requires WellFormed(s)
  {
    forall sid :: Alternates(Told(s, sid)) && (LastTold(Told(s, sid)) <==> IsLive(s, sid))
  }

  /** A link is open exactly while it is registered. */
  predicate OpenIffRegistered(s: State) {
    s.open == s.conns.Keys
  }

  lemma TellKeepsAlternating(bs: seq<bool>, b: bool)
    requires Alternates(bs) && LastTold(bs) != b
    ensures Alternates(bs + [b]) && LastTold(bs + [b]) == b
  {
  }

  lemma OwnedIsLive(s: State, sid: string)
    requires Inv(s) && OpenIffRegistered(s)
    ensures IsLive(s, sid) <==> sid in s.grace || sid in s.owner
  {
    assert sid in s.owner ==> Registered(s, s.owner[sid]);
  }

  lemma ClaimPresence(s: State, l: Link, sids: set<string>)
    requires Inv(s) && PresenceOk(s) && OpenIffRegistered(s) && l in s.conns
    ensures Inv(ClaimAll(s, s.conns[l], sids)) && PresenceOk(ClaimAll(s, s.conns[l], sids))
  {
    var t := ClaimAll(s, s.conns[l], sids);
    ClaimKeeps(s, l, sids);
    forall sid ensures Alternates(Told(t, sid)) && (LastTold(Told(t, sid)) <==> IsLive(t, sid)) {
      OwnedIsLive(s, sid);
      OwnedIsLive(t, sid);
      if sid in sids && !IsLive(s, sid) { TellKeepsAlternating(Told(s, sid), true); }
    }
  }

  lemma ReleasePresence(s: State, l: Link, keep: set<string>)
    requires Inv(s) && PresenceOk(s) && OpenIffRegistered(s) && l in s.conns
    ensures Inv(ReleaseAll(s, s.conns[l], keep)) && PresenceOk(ReleaseAll(s, s.conns[l], keep))
  {
    var t := ReleaseAll(s, s.conns[l], keep);
    ReleaseKeeps(s, l, keep);
    forall sid ensures IsLive(t, sid) <==> IsLive(s, sid) {
      OwnedIsLive(s, sid);
      OwnedIsLive(t, sid);
    }
    assert forall sid :: Told(t, sid) == Told(s, sid);
  }

  lemma HelloPresence(s: State, l: Link, sids: set<string>)
    requires Inv(s) && PresenceOk(s) && OpenIffRegistered(s) && l in s.conns
    ensures Inv(HelloStep(s, l, Some(sids))) && PresenceOk(HelloStep(s, l, Some(sids)))
  {
    ClaimPresence(s, l, Listed(sids));
    ReleasePresence(ClaimAll(s, s.conns[l], Listed(sids)), l, Listed(sids));
  }

  lemma GracePresence(s: State, sid: string)
    requires Inv(s) && PresenceOk(s) && OpenIffRegistered(s) && sid in s.grace
    ensures Inv(GraceStep(s, sid)) && PresenceOk(GraceStep(s, sid))
  {
    var t := GraceStep(s, sid);
    StepKeeps(s, GraceEnds(sid));
    forall x ensures Alternates(Told(t, x)) && (LastTold(Told(t, x)) <==> IsLive(t, x)) {
      OwnedIsLive(s, x);
      OwnedIsLive(t, x);
      if x == sid { TellKeepsAlternating(Told(s, x), false); }
    }
  }

  /** The network as the presence results need it: a link opens when it is added and closes when it is removed. */
  datatype Move = Connect(link: Link, daemonId: string) | Disconnect(link: Link) | Other(step: Step)

  predicate MoveOk(s: State, m: Move) {
    match m
    case Connect(l, d) => Enabled(s, Add(l, d))
    case Disconnect(l) => Enabled(s, Remove(l))
    case Other(t) => Enabled(s, t) && (t.Hello? || t.Observe? || t.GraceEnds?)
  }

  function Moved(s: State, m: Move): State
    requires MoveOk(s, m)
  {
    match m
    case Connect(l, d) => AddStep(s, l, d).(open := s.open + {l})
    case Disconnect(l) => RemoveStep(s, l).(open := s.open - {l})
    case Other(t) => Next(s, t)
  }

  lemma AddShape(s: State, l: Link, d: string)
    ensures var t := AddStep(s, l, d);
      t.told == s.told && t.grace == s.grace && t.owner == s.owner && t.conns.Keys == s.conns.Keys + {l}
  {
  }

  lemma ConnectPresence(s: State, l: Link, d: string)
    requires Inv(s) && PresenceOk(s) && OpenIffRegistered(s) && d !in s.byDaemon
    ensures var t := Moved(s, Connect(l, d)); Inv(t) && PresenceOk(t) && OpenIffRegistered(t)
  {
    var a, t := AddStep(s, l, d), Moved(s, Connect(l, d));
    AddKeeps(s, l, d);
    AddShape(s, l, d);
    SameTables(a, t);
    SamePresence(s, t);
  }

  lemma SamePresence(s: State, t: State)
    requires Inv(s) && Inv(t) && PresenceOk(s) && OpenIffRegistered(s) && OpenIffRegistered(t)
    requires t.told == s.told && t.grace + t.owner.Keys == s.grace + s.owner.Keys
    ensures PresenceOk(t)
  {
    forall sid ensures IsLive(t, sid) <==> IsLive(s, sid) {
      OwnedIsLive(s, sid);
      OwnedIsLive(t, sid);
      assert sid in t.grace + t.owner.Keys <==> sid in s.grace + s.owner.Keys;
    }
    assert forall sid :: Told(t, sid) == Told(s, sid);
  }

  lemma DisconnectPresence(s: State, l: Link)
    requires Inv(s) && PresenceOk(s) && OpenIffRegistered(s)
    ensures var t := Moved(s, Disconnect(l)); Inv(t) && PresenceOk(t) && OpenIffRegistered(t)
  {
    var a, t := RemoveStep(s, l), Moved(s, Disconnect(l));
    RemoveKeeps(s, l);
    SameTables(a, t);
    SamePresence(s, t);
  }

  lemma MovePresence(s: State, m: Move)
    requires Inv(s) && PresenceOk(s) && OpenIffRegistered(s) && MoveOk(s, m)
    ensures var t := Moved(s, m); Inv(t) && PresenceOk(t) && OpenIffRegistered(t)
  {
    match m
    case Connect(l, d) => ConnectPresence(s, l, d);
    case Disconnect(l) => DisconnectPresence(s, l);
    case Other(t) =>
      match t {
        case Hello(l, sids) =>
          if l in s.conns && sids.Some? { HelloPresence(s, l, sids.value); }
        case Observe(l, sid) => if l in s.conns { ClaimPresence(s, l, {sid}); }
        case GraceEnds(sid) => GracePresence(s, sid);
      }
  }

  predicate ValidMoves(s: State, ms: seq<Move>)
    decreases |ms|
  {
    ms != [] ==> MoveOk(s, ms[0]) && ValidMoves(Moved(s, ms[0]), ms[1..])
  }

  function MoveAll(s: State, ms: seq<Move>): State
    requires ValidMoves(s, ms)
    decreases |ms|
  {
    if ms == [] then s else MoveAll(Moved(s, ms[0]), ms[1..])
  }

  lemma {:induction false} MovesKeep(s: State, ms: seq<Move>)
    requires Inv(s) && PresenceOk(s) && OpenIffRegistered(s) && ValidMoves(s, ms)
    ensures var t := MoveAll(s, ms); Inv(t) && PresenceOk(t)
    decreases |ms|
  {
    if ms != [] {
      MovePresence(s, ms[0]);
      MovesKeep(Moved(s, ms[0]), ms[1..]);
    }
  }

  /** With links open exactly while registered, each session's notifications alternate, and the last one says whether it is present. */
  lemma PresenceAlternates(ms: seq<Move>, sid: string)
    requires ValidMoves(Start, ms)
    ensures var s := MoveAll(Start, ms);
      && WellFormed(s) && Alternates(Told(s, sid))
      && (LastTold(Told(s, sid)) <==> IsLive(s, sid))
  {
    assert PresenceOk(Start);
    MovesKeep(Start, ms);
  }

  // ---------------------------------------------------------------------------------------------
  // Presence step by step, whatever the links do.
  // ---------------------------------------------------------------------------------------------

  lemma LastOfAlternating(bs: seq<bool>, b: bool)
    requires Alternates(bs)
    ensures Alternates(bs + [b]) <==> LastTold(bs) != b
  {
    var longer := bs + [b];
    assert longer[|bs|] == b;
    if LastTold(bs) != b {
      TellKeepsAlternating(bs, b);
    }
  }

  /**
   A claim over a link, of one session or of a whole hello, breaks a session's alternation exactly when
   the link is open, the session was last announced present, and it is not live now: not in grace, and
   without an owner whose link is open.
   */
  lemma ClaimBreaksAlternationIff(s: State, l: Link, sids: set<string>, sid: string)
    requires Inv(s) && l in s.conns && sid in sids && Alternates(Told(s, sid))
    ensures !Alternates(Told(ClaimAll(s, s.conns[l], sids), sid)) <==>
            (&& l in s.open && LastTold(Told(s, sid)) && sid !in s.grace
             && !(sid in s.owner && s.objs[s.owner[sid]].link in s.open))
  {
    var bs, t := Told(s, sid), ClaimAll(s, s.conns[l], sids);
    assert s.objs[s.conns[l]].link == l;
    if l in s.open && !IsLive(s, sid) {
      assert sid in Appearing(s, s.conns[l], sids);
      assert Told(t, sid) == bs + [true];
      LastOfAlternating(bs, true);
    } else {
      assert sid !in Appearing(s, s.conns[l], sids);
      assert Told(t, sid) == bs;
    }
  }

  /** The end of a grace period breaks alternation exactly when the session was not last announced present. */
  lemma GraceBreaksAlternationIff(s: State, sid: string)
    requires Inv(s) && sid in s.grace && Alternates(Told(s, sid))
    ensures !Alternates(Told(GraceStep(s, sid), sid)) <==> !LastTold(Told(s, sid))
  {
    assert sid !in s.owner;
    assert Told(GraceStep(s, sid), sid) == Told(s, sid) + [false];
    LastOfAlternating(Told(s, sid), false);
  }

  /** What a session's last announcement says. */
  predicate Announced(s: State, sid: string)
    requires WellFormed(s)
  {
    LastTold(Told(s, sid)) <==> IsLive(s, sid)
  }

  /** The session rests on this link alone: owned over it, and not in grace. */
  predicate RestsOn(s: State, sid: string, l: Link)
    requires WellFormed(s)
  {
    sid !in s.grace && sid in s.owner && s.objs[s.owner[sid]].link == l
  }

  /** Opening or closing a link tells nobody: the announcement and the fact part exactly for the sessions that rest on the link, if the link changes at all. */
  lemma LinkChangePartsIff(s: State, l: Link, sid: string)
    requires Inv(s) && Announced(s, sid)
    ensures !Announced(Next(s, LinkCloses(l)), sid) <==> l in s.open && RestsOn(s, sid, l)
    ensures !Announced(Next(s, LinkOpens(l)), sid) <==> l !in s.open && RestsOn(s, sid, l)
  {
    assert Told(Next(s, LinkCloses(l)), sid) == Told(s, sid) && Told(Next(s, LinkOpens(l)), sid) == Told(s, sid);
  }

  /** A run with a failing input: the first owner's link closes, and before it is removed a second connection is heard from. */
  function TwiceRun(): seq<Step> {
    [LinkOpens(1), Add(1, "a"), Observe(1, "s"), LinkCloses(1), LinkOpens(2), Add(2, "b"), Observe(2, "s")]
  }

  /** The registry after each step of that run. */
  function TwiceWorld(n: nat): State {
    var first := Conn(1, "a", if n < 3 then {} else {"s"});
    var second := Conn(2, "b", if n < 7 then {} else {"s"});
    State(
      if n < 2 then map[] else if n < 6 then map[1 := 0] else map[1 := 0, 2 := 1],
      if n < 2 then map[] else if n < 6 then map["a" := 0] else map["a" := 0, "b" := 1],
      if n < 3 then map[] else if n < 7 then map["s" := 0] else map["s" := 1],
      {},
      if n < 2 then [] else if n < 6 then [first] else [first, second],
      if n < 1 then {} else if n < 4 then {1} else if n < 5 then {} else {2},
      if n < 3 then map[] else if n < 7 then map["s" := [true]] else map["s" := [true, true]])
  }

  predicate Leads(s: State, t: Step, s': State) {
    Enabled(s, t) && Next(s, t) == s'
  }

  lemma TwiceLeads(k: nat)
    requires k < 7
    ensures Leads(TwiceWorld(k), TwiceRun()[k], TwiceWorld(k + 1))
  {
    if k == 2 {
      FirstHeard();
    } else if k == 5 {
      assert "b" != "a";
    } else if k == 6 {
      SecondHeard();
    }
  }

  lemma FirstHeard()
    ensures Leads(TwiceWorld(2), Observe(1, "s"), TwiceWorld(3))
  {
    var w := TwiceWorld(2);
    var t := ClaimAll(w, 0, {"s"});
    ClaimOne(w, 0, "s");
    assert {} + {"s"} == {"s"} && [] + [true] == [true];
    assert t.owner == map["s" := 0] && t.told == map["s" := [true]] && t.grace == {};
    assert t.objs == [Conn(1, "a", {"s"})];
  }

  lemma SecondHeard()
    ensures Leads(TwiceWorld(6), Observe(2, "s"), TwiceWorld(7))
  {
    var w := TwiceWorld(6);
    assert !IsLive(w, "s");
    assert [true] + [true] == [true, true];
    var t := ClaimAll(w, 1, {"s"});
    ClaimOne(w, 1, "s");
    assert {} + {"s"} == {"s"};
    assert t.owner == map["s" := 1] && t.told == map["s" := [true, true]] && t.grace == {};
    assert t.objs == TwiceWorld(7).objs;
  }

  lemma {:induction false} RunAlong(worlds: seq<State>, ts: seq<Step>)
    requires |worlds| == |ts| + 1 && forall k :: 0 <= k < |ts| ==> Leads(worlds[k], ts[k], worlds[k + 1])
    ensures ValidRun(worlds[0], ts) && Run(worlds[0], ts) == worlds[|ts|]
    decreases |ts|
  {
    if ts != [] {
      var later, more := worlds[1..], ts[1..];
      forall k | 0 <= k < |more| ensures Leads(later[k], more[k], later[k + 1]) {
        assert Leads(worlds[k + 1], ts[k + 1], worlds[k + 2]);
      }
      RunAlong(later, more);
      assert Leads(worlds[0], ts[0], worlds[1]);
    }
  }

  /** After it the session has been announced present twice in a row. */
  lemma AnnouncedTwice()
    ensures ValidRun(Start, TwiceRun()) && Told(Run(Start, TwiceRun()), "s") == [true, true]
  {
    var worlds := seq(8, n requires 0 <= n < 8 => TwiceWorld(n));
    forall k | 0 <= k < 7 ensures Leads(worlds[k], TwiceRun()[k], worlds[k + 1]) { TwiceLeads(k); }
    RunAlong(worlds, TwiceRun());
  }

  // ---------------------------------------------------------------------------------------------
  // One session at a time, as the loops work.
  // ---------------------------------------------------------------------------------------------

  lemma NotifyMore(s: State, a: set<string>, b: set<string>, live: bool)
    requires a !! b
    ensures Notify(Notify(s, a, live), b, live) == Notify(s, a + b, live)
  {
    var t := Notify(s, a, live);
    forall sid ensures Told(t, sid) == if sid in a then Told(s, sid) + [live] else Told(s, sid) { }
    assert Notify(t, b, live).told == Notify(s, a + b, live).told;
  }

  lemma AppearingMore(s: State, r: Ref, done: set<string>, sid: string)
    requires WellFormed(s) && r < |s.objs| && sid !in done
    ensures WellFormed(ClaimAll(s, r, done))
    ensures Appearing(ClaimAll(s, r, done), r, {sid}) == Appearing(s, r, {sid})
    ensures Appearing(s, r, done + {sid}) == Appearing(s, r, done) + Appearing(s, r, {sid})
    ensures Appearing(s, r, done) !! Appearing(s, r, {sid})
  {
    var c := ClaimAll(s, r, done);
    assert IsLive(c, sid) <==> IsLive(s, sid);
  }

  lemma ClaimMore(s: State, r: Ref, done: set<string>, sid: string)
    requires WellFormed(s) && r < |s.objs| && sid !in done
    ensures WellFormed(ClaimAll(s, r, done))
    ensures ClaimAll(ClaimAll(s, r, done), r, {sid}) == ClaimAll(s, r, done + {sid})
  {
    var c := ClaimAll(s, r, done);
    AppearingMore(s, r, done, sid);
    ClaimMoreTables(s, r, done, sid);
    ClaimMoreTold(s, r, done, sid);
  }

  /** Everything but the notifications, after one more claim. */
  lemma ClaimMoreTables(s: State, r: Ref, done: set<string>, sid: string)
    requires WellFormed(s) && r < |s.objs| && WellFormed(ClaimAll(s, r, done))
    ensures var t, u := ClaimAll(ClaimAll(s, r, done), r, {sid}), ClaimAll(s, r, done + {sid});
      t == u.(told := t.told)
  {
    var c := ClaimAll(s, r, done);
    var t, u := ClaimAll(c, r, {sid}), ClaimAll(s, r, done + {sid});
    assert t.owner == u.owner;
    assert s.objs[r].sessions + done + {sid} == s.objs[r].sessions + (done + {sid});
    assert t.objs == u.objs;
    assert t.grace == u.grace;
  }

  lemma ClaimMoreTold(s: State, r: Ref, done: set<string>, sid: string)
    requires WellFormed(s) && r < |s.objs| && WellFormed(ClaimAll(s, r, done))
    requires Appearing(ClaimAll(s, r, done), r, {sid}) == Appearing(s, r, {sid})
    requires Appearing(s, r, done + {sid}) == Appearing(s, r, done) + Appearing(s, r, {sid})
    requires Appearing(s, r, done) !! Appearing(s, r, {sid})
    ensures ClaimAll(ClaimAll(s, r, done), r, {sid}).told == ClaimAll(s, r, done + {sid}).told
  {
    var c, n := ClaimAll(s, r, done), Notify(s, Appearing(s, r, done), true);
    NotifyMore(s, Appearing(s, r, done), Appearing(s, r, {sid}), true);
    SameTold(c, n, Appearing(s, r, {sid}), true);
  }

  lemma SameTold(s: State, t: State, who: set<string>, live: bool)
    requires s.told == t.told
    ensures Notify(s, who, live).told == Notify(t, who, live).told
  {
    assert forall x :: Told(s, x) == Told(t, x);
  }

  lemma ClaimNone(s: State, r: Ref)
    requires WellFormed(s) && r < |s.objs|
    ensures ClaimAll(s, r, {}) == s
  {
    var t := ClaimAll(s, r, {});
    assert t.owner == s.owner && t.told == s.told;
    assert t.objs == s.objs by { assert s.objs[r].sessions + {} == s.objs[r].sessions; }
  }

  class Registry {
    var conns: map<Link, Ref>
    var byDaemon: map<string, Ref>
    var sessionOwner: map<string, Ref>
    var grace: set<string>
    var objs: seq<Conn>
    var open: set<Link>
    var told: map<string, seq<bool>>

    constructor ()
      ensures View() == Start
    {
      conns, byDaemon, sessionOwner, grace, objs, open, told := map[], map[], map[], {}, [], {}, map[];
    }

    ghost function View(): State
      reads this
    {
      State(conns, byDaemon, sessionOwner, grace, objs, open, told)
    }

    predicate Present(sid: string)
      requires WellFormed(View())
      reads this
    {
      sid in grace || (sid in sessionOwner && objs[sessionOwner[sid]].link in open)
    }

    method AddLink(l: Link, daemonId: string)
      modifies this
      ensures View() == AddStep(old(View()), l, daemonId)
    {
      if l in conns {
        return;
      }
      conns := conns[l := |objs|];
      byDaemon := byDaemon[daemonId := |objs|];
      objs := objs + [Conn(l, daemonId, {})];
    }

    method Claim(r: Ref, sid: string)
      requires WellFormed(View()) && r < |objs|
      modifies this
      ensures View() == ClaimAll(old(View()), r, {sid})
    {
      var wasLive := Present(sid);
      grace := grace - {sid};
      objs := objs[r := objs[r].(sessions := objs[r].sessions + {sid})];
      sessionOwner := sessionOwner[sid := r];
      if !wasLive && objs[r].link in open {
        told := told[sid := (if sid in told then told[sid] else []) + [true]];
      }
      ClaimOne(old(View()), r, sid);
    }

    /** The close handler: every session the connection still owns goes into grace. */
    method RemoveLink(l: Link)
      requires WellFormed(View())
      modifies this
      ensures View() == RemoveStep(old(View()), l)
    {
      if l !in conns {
        return;
      }
      var r := conns[l];
      var left := objs[r].sessions;
      ghost var freed := {};
      while left != {}
        invariant objs == old(objs) && left <= objs[r].sessions && conns == old(conns) && byDaemon == old(byDaemon)
        invariant open == old(open) && told == old(told)
        invariant freed == OwnedListed(old(View()), r) - left
        invariant sessionOwner == old(sessionOwner) - freed && grace == old(grace) + freed
        decreases left
      {
        var sid :| sid in left;
        if sid in sessionOwner && sessionOwner[sid] == r {
          sessionOwner := sessionOwner - {sid};
          grace := grace + {sid};
          freed := freed + {sid};
        }
        left := left - {sid};
      }
      conns := conns - {l};
      byDaemon := byDaemon - {objs[r].daemonId};
    }

    /** A hello with a session list: claim what it lists, then release what it no longer lists. */
    method HandleHello(l: Link, sessions: set<string>) returns (known: bool)
      requires WellFormed(View())
      modifies this
      ensures View() == HelloStep(old(View()), l, Some(sessions))
      ensures known <==> l in old(conns)
    {
      if l !in conns {
        return false;
      }
      var r, next := conns[l], Listed(sessions);
      ClaimEach(r, next);
      ReleaseOthers(r, next);
      known := true;
    }

    method ClaimEach(r: Ref, next: set<string>)
      requires WellFormed(View()) && r < |objs|
      modifies this
      ensures View() == ClaimAll(old(View()), r, next)
    {
      var left, done := next, {};
      ClaimNone(View(), r);
      while left != {}
        invariant left !! done && left + done == next
        invariant WellFormed(View()) && r < |objs| && View() == ClaimAll(old(View()), r, done)
        decreases left
      {
        var sid :| sid in left;
        ClaimMore(old(View()), r, done, sid);
        Claim(r, sid);
        left, done := left - {sid}, done + {sid};
        WellFormedClaim(old(View()), r, done);
      }
      assert done == next;
    }

    method ReleaseOthers(r: Ref, keep: set<string>)
      requires r < |objs|
      modifies this
      ensures View() == ReleaseAll(old(View()), r, keep)
    {
      var left := objs[r].sessions;
      ghost var freed := {};
      FreeNothing(View(), r);
      while left != {}
        invariant r < |objs| && left <= old(objs)[r].sessions
        invariant freed == (OwnedListed(old(View()), r) - keep) - left
        invariant View() == Free(old(View()), r, freed)
        decreases left
      {
        var sid :| sid in left;
        if sid !in keep && sid in sessionOwner && sessionOwner[sid] == r {
          FreeMore(old(View()), r, freed, sid);
          objs := objs[r := objs[r].(sessions := objs[r].sessions - {sid})];
          sessionOwner := sessionOwner - {sid};
          grace := grace + {sid};
          freed := freed + {sid};
        }
        left := left - {sid};
      }
      assert freed == OwnedListed(old(View()), r) - keep;
    }

    method ObserveSession(l: Link, sid: string)
      requires WellFormed(View())
      modifies this
      ensures View() == Next(old(View()), Observe(l, sid))
    {
      if l in conns {
        Claim(conns[l], sid);
      }
    }

    method OnGraceEnd(sid: string)
      requires WellFormed(View()) && sid in grace
      modifies this
      ensures View() == GraceStep(old(View()), sid)
    {
      grace := grace - {sid};
      if !Present(sid) {
        told := told[sid := (if sid in told then told[sid] else []) + [false]];
        assert told == Notify(old(View()), {sid}, false).told;
      }
    }

    /** The present sessions: those with an open owner, and those in grace. */
    method LiveSessionIds() returns (ids: set<string>)
      requires WellFormed(View())
      ensures forall sid :: sid in ids <==> IsLive(View(), sid)
    {
      ids := {};
      var left := sessionOwner.Keys;
      while left != {}
        invariant left <= sessionOwner.Keys
        invariant forall sid :: sid in ids <==> sid in sessionOwner && sid !in left && objs[sessionOwner[sid]].link in open
        decreases left
      {
        var sid :| sid in left;
        if objs[sessionOwner[sid]].link in open {
          ids := ids + {sid};
        }
        left := left - {sid};
      }
      ids := ids + grace;
    }
  }

  /** A single claim, field by field. */
  lemma ClaimOne(s: State, r: Ref, sid: string)
    requires WellFormed(s) && r < |s.objs|
    ensures var t, c := ClaimAll(s, r, {sid}), s.objs[r];
      && t.owner == s.owner[sid := r] && t.grace == s.grace - {sid}
      && t.objs == s.objs[r := c.(sessions := c.sessions + {sid})]
      && t.told == (if !IsLive(s, sid) && c.link in s.open then s.told[sid := Told(s, sid) + [true]] else s.told)
      && t.conns == s.conns && t.byDaemon == s.byDaemon && t.open == s.open
  {
    var t := ClaimAll(s, r, {sid});
    assert t.owner == s.owner[sid := r];
    if !IsLive(s, sid) && s.objs[r].link in s.open {
      assert Appearing(s, r, {sid}) == {sid};
      assert t.told == s.told[sid := Told(s, sid) + [true]];
    } else {
      assert Appearing(s, r, {sid}) == {};
      assert t.told == s.told;
    }
  }

  lemma WellFormedClaim(s: State, r: Ref, sids: set<string>)
    requires WellFormed(s) && r < |s.objs|
    ensures WellFormed(ClaimAll(s, r, sids))
  {
  }

  lemma FreeNothing(s: State, r: Ref)
    requires r < |s.objs|
    ensures Free(s, r, {}) == s
  {
    assert s.objs[r].sessions - {} == s.objs[r].sessions;
    assert Free(s, r, {}).objs == s.objs;
  }

  lemma FreeMore(s: State, r: Ref, freed: set<string>, sid: string)
    requires r < |s.objs|
    ensures Free(Free(s, r, freed), r, {sid}) == Free(s, r, freed + {sid})
  {
    assert s.objs[r].sessions - freed - {sid} == s.objs[r].sessions - (freed + {sid});
    assert s.owner - freed - {sid} == s.owner - (freed + {sid});
    assert s.grace + freed + {sid} == s.grace + (freed + {sid});
  }
}
