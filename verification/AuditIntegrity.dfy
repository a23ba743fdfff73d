/**
 The tamper-evident audit manifest of one session: a SHA-256 chain over the displayed projection
 (session, summary, events, diff, truncation flag), its Ed25519 signature (section 5.1 of RFC 8032)
 and its verification.

 Main results: `RootBindsContent` (the chain root alone determines everything displayed, or the two
 computations contain an explicit hash collision), `BuildThenVerify`, and `TrustedMeansBuilt`
 (what verifies against a pinned key is what the signer built, or a forgery is exhibited).
 */
module AuditIntegrity {
  import opened Options
  import opened Hashing
  import opened Json

  const VERSION := "actradeck-audit-manifest/v3"
  const ALGORITHM := "sha256-chain"
  const MARKER := "actradeck-audit-manifest"
  const CHAIN_DOMAIN := VERSION + "/" + ALGORITHM

  /** The visible columns of one timeline event. */
  datatype EventFields = EventFields(
    event_id: string, timestamp: string, event_type: string, kind: string, risk_level: string,
    decision: string, exit_code: string, elapsed_ms: string, command: string)

  datatype ManifestEvent = ManifestEvent(fields: EventFields, hash: string)

  datatype Summary = Summary(
    provider: string, source: string, agent_id: string, repo: string, branch: string, cwd: string,
    capture_mode: string, permission_mode: string, state: string, started_at: string,
    ended_at: string, last_event_at: string, secret_detected: string,
    secret_redaction_count: string, redaction_by_kind: seq<(string, string)>,
    approval_total: string, approval_allow: string, approval_allow_for_session: string,
    approval_deny: string, approval_cancel: string, approval_synthetic_retired: string,
    approval_pending: string, high_risk_op_count: string)

  datatype Diff = Diff(
    available: string, truncated: string, secret_detected: string, redaction_count: string,
    unavailable_reason: string, body_sha256: string)

  datatype Signature = Signature(public_key: string, public_key_fingerprint: string, value: string)

  datatype Manifest = Manifest(
    version: string, algorithm: string, session_id: string, generated_at: string,
    event_count: nat, events_truncated: string, summary: Summary, events: seq<ManifestEvent>,
    diff: Option<Diff>, root: string, signature: Option<Signature>)

  /** What a reader of a manifest sees. */
  datatype Content = Content(
    session_id: string, summary: Summary, events: seq<EventFields>, diff: Option<Diff>,
    events_truncated: string)

  function Fields(events: seq<ManifestEvent>): (fs: seq<EventFields>)
    ensures |fs| == |events|
    ensures forall i :: 0 <= i < |events| ==> fs[i] == events[i].fields
  {
    seq(|events|, i requires 0 <= i < |events| => events[i].fields)
  }

  function ContentOf(m: Manifest): Content {
    Content(m.session_id, m.summary, Fields(m.events), m.diff, m.events_truncated)
  }

  // ---------------------------------------------------------------------------------------------
  // Canonical texts.
  // ---------------------------------------------------------------------------------------------

  function EventColumns(e: EventFields): (r: seq<string>) {
    [e.event_id, e.timestamp, e.event_type, e.kind, e.risk_level, e.decision, e.exit_code,
     e.elapsed_ms, e.command]
  }

  function CanonEvent(e: EventFields): string {
    EncodeStrings(EventColumns(e))
  }

  function Pair(p: (string, string)): Json {
    Arr([Str(p.0), Str(p.1)])
  }

  function Pairs(ps: seq<(string, string)>): (r: seq<Json>)
    ensures |r| == |ps| && forall i :: 0 <= i < |ps| ==> r[i] == Pair(ps[i])
  {
    seq(|ps|, i requires 0 <= i < |ps| => Pair(ps[i]))
  }

  function SummaryHead(s: Summary): seq<string> {
    [s.provider, s.source, s.agent_id, s.repo, s.branch, s.cwd, s.capture_mode, s.permission_mode,
     s.state, s.started_at, s.ended_at, s.last_event_at, s.secret_detected, s.secret_redaction_count]
  }

  function SummaryTail(s: Summary): seq<string> {
    [s.approval_total, s.approval_allow, s.approval_allow_for_session, s.approval_deny,
     s.approval_cancel, s.approval_synthetic_retired, s.approval_pending, s.high_risk_op_count]
  }

  function SummaryItems(s: Summary): seq<Json> {
    Strings(SummaryHead(s)) + [Arr(Pairs(s.redaction_by_kind))] + Strings(SummaryTail(s))
  }

  function CanonSummary(s: Summary): string {
    Encode(Arr(SummaryItems(s)))
  }

  function DiffColumns(d: Option<Diff>): seq<string> {
    match d
    case None => []
    case Some(d) =>
      [d.available, d.truncated, d.secret_detected, d.redaction_count, d.unavailable_reason,
       d.body_sha256]
  }

  function CanonClose(d: Option<Diff>, truncated: string): string {
    EncodeStrings([EncodeStrings(DiffColumns(d)), truncated])
  }

  // The layout of the hashed records, field by field, as every verifier of this version reads them.

  lemma EventLayout(e: EventFields)
    ensures CanonEvent(e) == Encode(Arr(
      [Str(e.event_id), Str(e.timestamp), Str(e.event_type), Str(e.kind), Str(e.risk_level),
       Str(e.decision), Str(e.exit_code), Str(e.elapsed_ms), Str(e.command)]))
  {
    assert Strings(EventColumns(e)) ==
      [Str(e.event_id), Str(e.timestamp), Str(e.event_type), Str(e.kind), Str(e.risk_level),
       Str(e.decision), Str(e.exit_code), Str(e.elapsed_ms), Str(e.command)];
  }

  lemma SummaryLayout(s: Summary)
    ensures CanonSummary(s) == Encode(Arr(
      [Str(s.provider), Str(s.source), Str(s.agent_id), Str(s.repo), Str(s.branch),
       Str(s.cwd), Str(s.capture_mode), Str(s.permission_mode), Str(s.state), Str(s.started_at),
       Str(s.ended_at), Str(s.last_event_at), Str(s.secret_detected), Str(s.secret_redaction_count)]
      + [Arr(Pairs(s.redaction_by_kind))] +
      [Str(s.approval_total), Str(s.approval_allow), Str(s.approval_allow_for_session),
       Str(s.approval_deny), Str(s.approval_cancel), Str(s.approval_synthetic_retired),
       Str(s.approval_pending), Str(s.high_risk_op_count)]))
  {
    HeadLayout(s);
    TailLayout(s);
  }

  lemma PairLayout(ps: seq<(string, string)>, k: nat)
    requires k < |ps|
    ensures |Pairs(ps)| == |ps| && Pairs(ps)[k] == Arr([Str(ps[k].0), Str(ps[k].1)])
  {
  }

  lemma HeadLayout(s: Summary)
    ensures Strings(SummaryHead(s)) ==
      [Str(s.provider), Str(s.source), Str(s.agent_id), Str(s.repo), Str(s.branch),
       Str(s.cwd), Str(s.capture_mode), Str(s.permission_mode), Str(s.state), Str(s.started_at),
       Str(s.ended_at), Str(s.last_event_at), Str(s.secret_detected), Str(s.secret_redaction_count)]
  {
  }

  lemma TailLayout(s: Summary)
    ensures Strings(SummaryTail(s)) ==
      [Str(s.approval_total), Str(s.approval_allow), Str(s.approval_allow_for_session),
       Str(s.approval_deny), Str(s.approval_cancel), Str(s.approval_synthetic_retired),
       Str(s.approval_pending), Str(s.high_risk_op_count)]
  {
  }

  lemma CloseLayout(d: Diff, truncated: string)
    ensures CanonClose(None, truncated) == Encode(Arr([Str(Encode(Arr([]))), Str(truncated)]))
    ensures CanonClose(Some(d), truncated) == Encode(Arr([Str(Encode(Arr(
      [Str(d.available), Str(d.truncated), Str(d.secret_detected), Str(d.redaction_count), Str(d.unavailable_reason),
       Str(d.body_sha256)]))), Str(truncated)]))
  {
    DiffLayout(d);
    TwoStrings(EncodeStrings(DiffColumns(Some(d))), truncated);
    TwoStrings(EncodeStrings(DiffColumns(None)), truncated);
    assert Strings(DiffColumns(None)) == [];
  }

  lemma DiffLayout(d: Diff)
    ensures Strings(DiffColumns(Some(d))) ==
      [Str(d.available), Str(d.truncated), Str(d.secret_detected), Str(d.redaction_count), Str(d.unavailable_reason),
       Str(d.body_sha256)]
  {
  }

  lemma TwoStrings(a: string, b: string)
    ensures Strings([a, b]) == [Str(a), Str(b)]
  {
  }

  lemma EventColumnsInjective(a: EventFields, b: EventFields)
    requires EventColumns(a) == EventColumns(b)
    ensures a == b
  {
    var x, y := EventColumns(a), EventColumns(b);
    assert x[0] == y[0] && x[1] == y[1] && x[2] == y[2] && x[3] == y[3] && x[4] == y[4];
    assert x[5] == y[5] && x[6] == y[6] && x[7] == y[7] && x[8] == y[8];
  }

  lemma PairsInjective(a: seq<(string, string)>, b: seq<(string, string)>)
    requires Pairs(a) == Pairs(b)
    ensures a == b
  {
    assert |a| == |Pairs(a)| == |b|;
    forall i | 0 <= i < |a| ensures a[i] == b[i] {
      assert Pairs(a)[i] == Pair(a[i]) && Pairs(b)[i] == Pair(b[i]);
      assert Pair(a[i]).items[0] == Pair(b[i]).items[0];
      assert Pair(a[i]).items[1] == Pair(b[i]).items[1];
    }
  }

  lemma SummaryColumnsInjective(a: Summary, b: Summary)
    requires SummaryHead(a) == SummaryHead(b) && SummaryTail(a) == SummaryTail(b)
    requires a.redaction_by_kind == b.redaction_by_kind
    ensures a == b
  {
    var x, y := SummaryHead(a), SummaryHead(b);
    assert x[0] == y[0] && x[1] == y[1] && x[2] == y[2] && x[3] == y[3] && x[4] == y[4];
    assert x[5] == y[5] && x[6] == y[6] && x[7] == y[7] && x[8] == y[8] && x[9] == y[9];
    assert x[10] == y[10] && x[11] == y[11] && x[12] == y[12] && x[13] == y[13];
    var u, v := SummaryTail(a), SummaryTail(b);
    assert u[0] == v[0] && u[1] == v[1] && u[2] == v[2] && u[3] == v[3];
    assert u[4] == v[4] && u[5] == v[5] && u[6] == v[6] && u[7] == v[7];
  }

  lemma CanonSummaryInjective(a: Summary, b: Summary)
    requires CanonSummary(a) == CanonSummary(b)
    ensures a == b
  {
    EncodeDetermines(Arr(SummaryItems(a)), Arr(SummaryItems(b)));
    var pa, pb := [Arr(Pairs(a.redaction_by_kind))], [Arr(Pairs(b.redaction_by_kind))];
    Cancel(Strings(SummaryHead(a)) + pa, Strings(SummaryTail(a)),
           Strings(SummaryHead(b)) + pb, Strings(SummaryTail(b)));
    Cancel(Strings(SummaryHead(a)), pa, Strings(SummaryHead(b)), pb);
    assert pa[0] == pb[0];
    StringsInjective(SummaryHead(a), SummaryHead(b));
    StringsInjective(SummaryTail(a), SummaryTail(b));
    PairsInjective(a.redaction_by_kind, b.redaction_by_kind);
    SummaryColumnsInjective(a, b);
  }

  lemma EncodeStringsInjective(a: seq<string>, b: seq<string>)
    requires EncodeStrings(a) == EncodeStrings(b)
    ensures a == b
  {
    EncodeDetermines(Arr(Strings(a)), Arr(Strings(b)));
    StringsInjective(a, b);
  }

  lemma CanonEventInjective(a: EventFields, b: EventFields)
    requires CanonEvent(a) == CanonEvent(b)
    ensures a == b
  {
    EncodeStringsInjective(EventColumns(a), EventColumns(b));
    EventColumnsInjective(a, b);
  }

  lemma CanonCloseInjective(a: Option<Diff>, s: string, b: Option<Diff>, t: string)
    requires CanonClose(a, s) == CanonClose(b, t)
    ensures a == b && s == t
  {
    var x, y := [EncodeStrings(DiffColumns(a)), s], [EncodeStrings(DiffColumns(b)), t];
    EncodeStringsInjective(x, y);
    assert x[0] == y[0] && x[1] == y[1];
    EncodeStringsInjective(DiffColumns(a), DiffColumns(b));
    var u, v := DiffColumns(a), DiffColumns(b);
    if a.Some? && b.Some? {
      assert u[0] == v[0] && u[1] == v[1] && u[2] == v[2] && u[3] == v[3] && u[4] == v[4] && u[5] == v[5];
    }
  }

  /** A summary link and an event link never coincide: their arrays have 23 and 9 elements. */
  lemma LinksDiffer(s: Summary, e: EventFields)
    ensures CanonSummary(s) != CanonEvent(e)
  {
    assert |SummaryItems(s)| == 23 && |EventColumns(e)| == 9;
    if CanonSummary(s) == CanonEvent(e) {
      EncodeDetermines(Arr(SummaryItems(s)), Arr(Strings(EventColumns(e))));
    }
  }

  // ---------------------------------------------------------------------------------------------
  // The chain, and the texts it hashes.
  // ---------------------------------------------------------------------------------------------

  function SessionText(sid: string): string {
    CHAIN_DOMAIN + EncodeStrings([sid])
  }

  lemma SessionLayout(sid: string)
    ensures SessionText(sid) == "actradeck-audit-manifest/v3" + "/" + "sha256-chain" + Encode(Arr([Str(sid)]))
  {
    assert Strings([sid]) == [Str(sid)];
  }

  function Opening(H: Sha256, sid: string, s: Summary): (d: string)
    ensures |d| == 64
  {
    ChainStep(H, H(SessionText(sid)), CanonSummary(s))
  }

  /** The digest after the given events, oldest first. */
  function AfterEvents(H: Sha256, c: Content, n: nat): (d: string)
    requires n <= |c.events|
    ensures |d| == 64
  {
    if n == 0 then Opening(H, c.session_id, c.summary)
    else ChainStep(H, AfterEvents(H, c, n - 1), CanonEvent(c.events[n - 1]))
  }

  function Root(H: Sha256, c: Content): string {
    ChainStep(H, AfterEvents(H, c, |c.events|), CanonClose(c.diff, c.events_truncated))
  }

  /** Every text that computing the root of `c` hashes, up to the first `n` events. */
  function HashedUpTo(H: Sha256, c: Content, n: nat): set<string>
    requires n <= |c.events|
  {
    if n == 0 then
      {SessionText(c.session_id), H(SessionText(c.session_id)) + CanonSummary(c.summary)}
    else HashedUpTo(H, c, n - 1) + {AfterEvents(H, c, n - 1) + CanonEvent(c.events[n - 1])}
  }

  function Hashed(H: Sha256, c: Content): set<string> {
    HashedUpTo(H, c, |c.events|)
      + {AfterEvents(H, c, |c.events|) + CanonClose(c.diff, c.events_truncated)}
  }

  lemma OpeningBinds(H: Sha256, c: Content, d: Content)
    requires Opening(H, c.session_id, c.summary) == Opening(H, d.session_id, d.summary)
    ensures (c.session_id == d.session_id && c.summary == d.summary)
         || Collides(H, HashedUpTo(H, c, 0), HashedUpTo(H, d, 0))
  {
    var x, y := SessionText(c.session_id), SessionText(d.session_id);
    StepBinds(H, H(x), CanonSummary(c.summary), H(y), CanonSummary(d.summary));
    var xs, ys := {H(x) + CanonSummary(c.summary)}, {H(y) + CanonSummary(d.summary)};
    if Collides(H, xs, ys) {
      CollidesMonotone(H, xs, ys, HashedUpTo(H, c, 0), HashedUpTo(H, d, 0));
    } else {
      CanonSummaryInjective(c.summary, d.summary);
      if x == y {
        Cancel(CHAIN_DOMAIN, EncodeStrings([c.session_id]), CHAIN_DOMAIN, EncodeStrings([d.session_id]));
        EncodeStringsInjective([c.session_id], [d.session_id]);
        assert [c.session_id][0] == [d.session_id][0];
      } else {
        assert x in HashedUpTo(H, c, 0) && y in HashedUpTo(H, d, 0);
      }
    }
  }

  /** A digest after some events is never the opening digest of a chain, short of a collision. */
  lemma EventIsNotOpening(H: Sha256, c: Content, m: nat, d: Content)
    requires 0 < m <= |c.events| && AfterEvents(H, c, m) == Opening(H, d.session_id, d.summary)
    ensures Collides(H, HashedUpTo(H, c, m), HashedUpTo(H, d, 0))
    ensures Collides(H, HashedUpTo(H, d, 0), HashedUpTo(H, c, m))
  {
    var p, x := AfterEvents(H, c, m - 1), CanonEvent(c.events[m - 1]);
    var q, y := H(SessionText(d.session_id)), CanonSummary(d.summary);
    LinksDiffer(d.summary, c.events[m - 1]);
    if p + x == q + y {
      Cancel(p, x, q, y);
    }
    assert p + x in HashedUpTo(H, c, m) && q + y in HashedUpTo(H, d, 0);
  }

  /** Two chains so far have the same content, or their hashed texts collide. */
  ghost predicate Bound(H: Sha256, c: Content, m: nat, d: Content, n: nat)
    requires m <= |c.events| && n <= |d.events|
  {
    Agree(c, m, d, n) || Collides(H, HashedUpTo(H, c, m), HashedUpTo(H, d, n))
  }

  lemma LastEventBinds(H: Sha256, c: Content, m: nat, d: Content, n: nat)
    requires 0 < m <= |c.events| && 0 < n <= |d.events|
    requires AfterEvents(H, c, m) == AfterEvents(H, d, n)
    ensures (AfterEvents(H, c, m - 1) == AfterEvents(H, d, n - 1) && c.events[m - 1] == d.events[n - 1])
         || Bound(H, c, m, d, n)
  {
    var p, x := AfterEvents(H, c, m - 1), CanonEvent(c.events[m - 1]);
    var q, y := AfterEvents(H, d, n - 1), CanonEvent(d.events[n - 1]);
    StepBinds(H, p, x, q, y);
    if Collides(H, {p + x}, {q + y}) {
      CollidesMonotone(H, {p + x}, {q + y}, HashedUpTo(H, c, m), HashedUpTo(H, d, n));
    } else {
      CanonEventInjective(c.events[m - 1], d.events[n - 1]);
    }
  }

  predicate Agree(c: Content, m: nat, d: Content, n: nat) {
    && m == n <= |c.events| && n <= |d.events|
    && c.events[..m] == d.events[..n]
    && c.session_id == d.session_id && c.summary == d.summary
  }

  lemma AgreeExtend(c: Content, m: nat, d: Content, n: nat)
    requires Agree(c, m, d, n) && m < |c.events| && n < |d.events| && c.events[m] == d.events[n]
    ensures Agree(c, m + 1, d, n + 1)
  {
    assert c.events[..m + 1] == c.events[..m] + [c.events[m]];
    assert d.events[..n + 1] == d.events[..n] + [d.events[n]];
  }

  /** Equal digests come from the same number of the same events, or from a collision. */
  lemma {:induction false} EventsBind(H: Sha256, c: Content, m: nat, d: Content, n: nat)
    requires m <= |c.events| && n <= |d.events|
    requires AfterEvents(H, c, m) == AfterEvents(H, d, n)
    ensures Bound(H, c, m, d, n)
    decreases m
  {
    if m == 0 || n == 0 {
      EventsBindStart(H, c, m, d, n);
    } else {
      LastEventBinds(H, c, m, d, n);
      if AfterEvents(H, c, m - 1) == AfterEvents(H, d, n - 1) && c.events[m - 1] == d.events[n - 1] {
        EventsBind(H, c, m - 1, d, n - 1);
        EventsBindNext(H, c, m - 1, d, n - 1);
      }
    }
  }

  /** A chain that has only opened agrees only with another that has only opened. */
  lemma EventsBindStart(H: Sha256, c: Content, m: nat, d: Content, n: nat)
    requires m <= |c.events| && n <= |d.events| && (m == 0 || n == 0)
    requires AfterEvents(H, c, m) == AfterEvents(H, d, n)
    ensures Bound(H, c, m, d, n)
  {
    if m == 0 && n == 0 {
      OpeningBinds(H, c, d);
    } else if m == 0 {
      EventIsNotOpening(H, d, n, c);
    } else {
      EventIsNotOpening(H, c, m, d);
    }
  }

  /** What binds so far binds with one more equal event. */
  lemma EventsBindNext(H: Sha256, c: Content, m: nat, d: Content, n: nat)
    requires m < |c.events| && n < |d.events| && c.events[m] == d.events[n]
    requires Bound(H, c, m, d, n)
    ensures Bound(H, c, m + 1, d, n + 1)
  {
    if Agree(c, m, d, n) {
      AgreeExtend(c, m, d, n);
    } else {
      CollidesMonotone(H, HashedUpTo(H, c, m), HashedUpTo(H, d, n), HashedUpTo(H, c, m + 1), HashedUpTo(H, d, n + 1));
    }
  }

  /**
   The root alone determines session id, summary, event list (with its length), diff and truncation
   flag: equal roots mean equal displayed contents, or two different texts among those the two
   computations hashed share a hash.
   */
  lemma RootBindsContent(H: Sha256, c: Content, d: Content)
    requires Root(H, c) == Root(H, d)
    ensures c == d || Collides(H, Hashed(H, c), Hashed(H, d))
  {
    var p, q := AfterEvents(H, c, |c.events|), AfterEvents(H, d, |d.events|);
    var x, y := CanonClose(c.diff, c.events_truncated), CanonClose(d.diff, d.events_truncated);
    StepBinds(H, p, x, q, y);
    if Collides(H, {p + x}, {q + y}) {
      CollidesMonotone(H, {p + x}, {q + y}, Hashed(H, c), Hashed(H, d));
    } else {
      CanonCloseInjective(c.diff, c.events_truncated, d.diff, d.events_truncated);
      EventsBind(H, c, |c.events|, d, |d.events|);
      assert c.events[..|c.events|] == c.events && d.events[..|d.events|] == d.events;
      var xs, ys := HashedUpTo(H, c, |c.events|), HashedUpTo(H, d, |d.events|);
      if Collides(H, xs, ys) {
        CollidesMonotone(H, xs, ys, Hashed(H, c), Hashed(H, d));
      }
    }
  }

  // ---------------------------------------------------------------------------------------------
  // Signatures.
  // ---------------------------------------------------------------------------------------------

  /** Ed25519 and the key fingerprint, by their one law: a signature by a key verifies under its public half. */
  datatype Ed25519 = Ed25519(
    sign: (string, string) -> string,
    publicKey: string -> string,
    verify: (string, string, string) -> bool,
    fingerprint: string -> string)

  ghost predicate SignLaw(crypto: Ed25519) {
    forall key, data :: crypto.verify(crypto.publicKey(key), data, crypto.sign(key, data))
  }

  function HeaderItems(m: Manifest): seq<Json> {
    [Str(VERSION), Str(m.session_id), Str(m.generated_at), Int(m.event_count), Str(m.root)]
  }

  /** The signed text: the root and the metadata beside it. */
  function Header(m: Manifest): string {
    Encode(Arr(HeaderItems(m)))
  }

  lemma HeaderLayout(m: Manifest)
    ensures Header(m) == Encode(Arr(
      [Str("actradeck-audit-manifest/v3"), Str(m.session_id), Str(m.generated_at), Int(m.event_count), Str(m.root)]))
  {
  }

  lemma HeaderInjective(a: Manifest, b: Manifest)
    requires Header(a) == Header(b)
    ensures a.session_id == b.session_id && a.generated_at == b.generated_at
    ensures a.event_count == b.event_count && a.root == b.root
  {
    var x, y := HeaderItems(a), HeaderItems(b);
    EncodeDetermines(Arr(x), Arr(y));
    assert x[1] == y[1] && x[2] == y[2] && x[3] == y[3] && x[4] == y[4];
  }

  // ---------------------------------------------------------------------------------------------
  // Build.
  // ---------------------------------------------------------------------------------------------

  /** The diff section of a report: its flags and, when available, its displayed body. */
  datatype ReportDiff = ReportDiff(
    available: string, truncated: string, secret_detected: string, redaction_count: string,
    unavailable_reason: string, body: Option<string>)

  datatype Report = Report(
    session_id: string, generated_at: string, summary: Summary, events: seq<EventFields>,
    diff: Option<ReportDiff>, events_truncated: bool)

  function NormalizeDiff(H: Sha256, d: ReportDiff): Diff {
    Diff(d.available, d.truncated, d.secret_detected, d.redaction_count, d.unavailable_reason,
         if d.body.None? then "" else H(d.body.value))
  }

  function FlagText(b: bool): string {
    if b then "true" else "false"
  }

  function ReportContent(H: Sha256, r: Report): Content {
    Content(r.session_id, r.summary, r.events,
            if r.diff.None? then None else Some(NormalizeDiff(H, r.diff.value)),
            FlagText(r.events_truncated))
  }

  /** The manifest shows the report, field by field; of a diff's body it shows the hash. */
  predicate ShowsReport(H: Sha256, m: Manifest, r: Report) {
    && m.session_id == r.session_id && m.generated_at == r.generated_at && m.summary == r.summary
    && m.event_count == |m.events| == |r.events| && (forall i :: 0 <= i < |r.events| ==> m.events[i].fields == r.events[i])
    && m.events_truncated == (if r.events_truncated then "true" else "false")
    && (m.diff.Some? <==> r.diff.Some?)
    && (m.diff.Some? ==>
          && m.diff.value.available == r.diff.value.available && m.diff.value.truncated == r.diff.value.truncated
          && m.diff.value.secret_detected == r.diff.value.secret_detected
          && m.diff.value.redaction_count == r.diff.value.redaction_count
          && m.diff.value.unavailable_reason == r.diff.value.unavailable_reason
          && m.diff.value.body_sha256 == if r.diff.value.body.Some? then H(r.diff.value.body.value) else "")
  }

  predicate LinkOk(H: Sha256, m: Manifest, i: nat)
    requires i < |m.events|
  {
    m.events[i].hash == AfterEvents(H, ContentOf(m), i + 1)
  }

  /** The next digest of the chain over a manifest's content. */
  lemma NextLink(H: Sha256, m: Manifest, i: nat)
    requires i < |m.events|
    ensures ChainStep(H, AfterEvents(H, ContentOf(m), i), CanonEvent(m.events[i].fields)) == AfterEvents(H, ContentOf(m), i + 1)
  {
    assert ContentOf(m).events[i] == m.events[i].fields;
  }

  /** The recorded hashes and counts of a manifest are exactly those of the chain over its content. */
  ghost predicate ChainValid(H: Sha256, m: Manifest) {
    && m.event_count == |m.events|
    && (forall i :: 0 <= i < |m.events| ==> LinkOk(H, m, i))
    && m.root == Root(H, ContentOf(m))
  }

  /** The links of the chain, event by event, and the last digest. */
  method LinkEvents(H: Sha256, sid: string, summary: Summary, fields: seq<EventFields>, ghost c: Content)
    returns (events: seq<ManifestEvent>, last: string)
    requires c.session_id == sid && c.summary == summary && c.events == fields
    ensures |events| == |fields| && last == AfterEvents(H, c, |fields|)
    ensures forall j :: 0 <= j < |fields| ==> events[j] == ManifestEvent(fields[j], AfterEvents(H, c, j + 1))
  {
    last := ChainStep(H, H(SessionText(sid)), CanonSummary(summary));
    events := [];
    for i := 0 to |fields|
      invariant |events| == i
      invariant last == AfterEvents(H, c, i)
      invariant forall j :: 0 <= j < i ==> events[j] == ManifestEvent(fields[j], AfterEvents(H, c, j + 1))
    {
      last := ChainStep(H, last, CanonEvent(fields[i]));
      events := events + [ManifestEvent(fields[i], last)];
    }
  }

  method BuildAuditManifest(H: Sha256, crypto: Ed25519, report: Report, key: Option<string>)
    returns (m: Manifest)
    ensures ShowsReport(H, m, report) && ContentOf(m) == ReportContent(H, report)
    ensures ChainValid(H, m)
    ensures m.version == VERSION && m.algorithm == ALGORITHM && m.generated_at == report.generated_at
    ensures key.None? ==> m.signature.None?
    ensures key.Some? ==> m.signature == Some(Signature(
      crypto.publicKey(key.value), crypto.fingerprint(crypto.publicKey(key.value)),
      crypto.sign(key.value, Header(m))))
  {
    ghost var c := ReportContent(H, report);
    var diff := if report.diff.None? then None else Some(NormalizeDiff(H, report.diff.value));
    var truncated := FlagText(report.events_truncated);
    var events, prev := LinkEvents(H, report.session_id, report.summary, report.events, c);
    var root := ChainStep(H, prev, CanonClose(diff, truncated));
    m := Manifest(VERSION, ALGORITHM, report.session_id, report.generated_at, |events|, truncated,
                  report.summary, events, diff, root, None);
    assert Fields(m.events) == report.events;
    if key.Some? {
      var pub := crypto.publicKey(key.value);
      m := m.(signature := Some(Signature(pub, crypto.fingerprint(pub), crypto.sign(key.value, Header(m)))));
    }
  }

  // ---------------------------------------------------------------------------------------------
  // Verify.
  // ---------------------------------------------------------------------------------------------

  datatype Reason =
    | UnsupportedVersion | Malformed | ChainMismatch | ChainConsistentUnsigned | SignatureInvalid
    | SignatureValidUnpinned | UntrustedKey | Verified

  datatype VerifyResult = VerifyResult(
    ok: bool, chain_valid: bool, signed: bool, signature_valid: Option<bool>,
    key_trusted: Option<bool>, reason: Reason)

  predicate OtherVersion(version: string, current: string, marker: string) {
    version != current && marker + "/" <= version
  }

  /** What `verify` decides after the chain is known to be consistent. */
  function SignatureVerdict(crypto: Ed25519, sig: Option<Signature>, header: string, pin: Option<string>)
    : VerifyResult
  {
    match sig
    case None => VerifyResult(true, true, false, None, None, ChainConsistentUnsigned)
    case Some(sig) =>
      if !crypto.verify(sig.public_key, header, sig.value) then
        VerifyResult(false, true, true, Some(false), None, SignatureInvalid)
      else if pin.None? then
        VerifyResult(false, true, true, Some(true), None, SignatureValidUnpinned)
      else
        var trusted := crypto.fingerprint(sig.public_key) == pin.value;
        VerifyResult(trusted, true, true, Some(true), Some(trusted),
                     if trusted then Verified else UntrustedKey)
  }

  /** The signature is a valid one on this text, by the key whose fingerprint is expected. */
  predicate Trusted(crypto: Ed25519, sig: Option<Signature>, header: string, pin: Option<string>) {
    && sig.Some? && crypto.verify(sig.value.public_key, header, sig.value.value)
    && pin == Some(crypto.fingerprint(sig.value.public_key))
  }

  /**
   What a verification of a well-formed manifest says: accepted exactly if the chain is consistent and
   there is no signature or a trusted one; each other field, and each reason, exactly in its own case.
   */
  predicate VerdictExact(
    crypto: Ed25519, sig: Option<Signature>, header: string, pin: Option<string>, chainOk: bool, r: VerifyResult)
  {
    var checked := chainOk && sig.Some?;
    var verifies := sig.Some? && crypto.verify(sig.value.public_key, header, sig.value.value);
    && (r.ok <==> chainOk && (sig.None? || Trusted(crypto, sig, header, pin)))
    && (r.chain_valid <==> chainOk)
    && (r.signed <==> sig.Some?)
    && r.signature_valid == (if checked then Some(verifies) else None)
    && r.key_trusted == (if checked && verifies && pin.Some? then Some(Trusted(crypto, sig, header, pin)) else None)
    && (r.reason == ChainMismatch <==> !chainOk)
    && (r.reason == ChainConsistentUnsigned <==> chainOk && sig.None?)
    && (r.reason == SignatureInvalid <==> checked && !verifies)
    && (r.reason == SignatureValidUnpinned <==> checked && verifies && pin.None?)
    && (r.reason == UntrustedKey <==> checked && verifies && pin.Some? && !Trusted(crypto, sig, header, pin))
    && (r.reason == Verified <==> checked && Trusted(crypto, sig, header, pin))
  }

  /** Recomputing every link, and the digest after the last event. */
  method CheckLinks(H: Sha256, m: Manifest) returns (valid: bool, last: string)
    ensures valid <==> forall j :: 0 <= j < |m.events| ==> LinkOk(H, m, j)
    ensures last == AfterEvents(H, ContentOf(m), |m.events|)
  {
    last := ChainStep(H, H(SessionText(m.session_id)), CanonSummary(m.summary));
    valid := true;
    for i := 0 to |m.events|
      invariant last == AfterEvents(H, ContentOf(m), i)
      invariant valid <==> forall j :: 0 <= j < i ==> LinkOk(H, m, j)
    {
      NextLink(H, m, i);
      last := ChainStep(H, last, CanonEvent(m.events[i].fields));
      assert LinkOk(H, m, i) <==> last == m.events[i].hash;
      if last != m.events[i].hash {
        valid := false;
      }
    }
  }

  /** Recomputing every link and the root. */
  method CheckChain(H: Sha256, m: Manifest) returns (valid: bool)
    ensures valid <==> ChainValid(H, m)
  {
    var linksOk, last := CheckLinks(H, m);
    valid := |m.events| == m.event_count && linksOk && ChainStep(H, last, CanonClose(m.diff, m.events_truncated)) == m.root;
  }

  method VerifyAuditManifest(H: Sha256, crypto: Ed25519, m: Manifest, pin: Option<string>)
    returns (r: VerifyResult)
    ensures var wellFormed := m.version == VERSION && m.algorithm == ALGORITHM;
      if wellFormed then VerdictExact(crypto, m.signature, Header(m), pin, ChainValid(H, m), r)
      else r == VerifyResult(false, false, false, None, None,
                             if m.version != VERSION && "actradeck-audit-manifest/" <= m.version then UnsupportedVersion else Malformed)
  {
    if OtherVersion(m.version, VERSION, MARKER) {
      return VerifyResult(false, false, false, None, None, UnsupportedVersion);
    }
    if m.version != VERSION || m.algorithm != ALGORITHM {
      return VerifyResult(false, false, false, None, None, Malformed);
    }
    var chainValid := CheckChain(H, m);
    if !chainValid {
      return VerifyResult(false, false, m.signature.Some?, None, None, ChainMismatch);
    }
    return SignatureVerdict(crypto, m.signature, Header(m), pin);
  }

  /** Two manifests that verify as chain-consistent and share a root show the same thing. */
  lemma SameRootSameDisplay(H: Sha256, a: Manifest, b: Manifest)
    requires ChainValid(H, a) && ChainValid(H, b) && a.root == b.root
    ensures (ContentOf(a) == ContentOf(b) && a.event_count == b.event_count)
         || Collides(H, Hashed(H, ContentOf(a)), Hashed(H, ContentOf(b)))
  {
    RootBindsContent(H, ContentOf(a), ContentOf(b));
    assert |Fields(a.events)| == a.event_count && |Fields(b.events)| == b.event_count;
  }

  /** Building and then verifying with the signer's own fingerprint pinned always succeeds. */
  method BuildThenVerify(H: Sha256, crypto: Ed25519, report: Report, key: string)
    returns (r: VerifyResult)
    requires SignLaw(crypto)
    ensures r == VerifyResult(true, true, true, Some(true), Some(true), Verified)
  {
    var m := BuildAuditManifest(H, crypto, report, Some(key));
    assert crypto.verify(crypto.publicKey(key), Header(m), crypto.sign(key, Header(m)));
    r := VerifyAuditManifest(H, crypto, m, Some(crypto.fingerprint(crypto.publicKey(key))));
  }

  /** A signature that verifies under a key on a text that is none of those its holder signed. */
  predicate Forged(crypto: Ed25519, pub: string, signed: seq<string>, data: string, sig: string) {
    crypto.verify(pub, data, sig) && data !in signed
  }

  /** Another key with the same fingerprint. */
  predicate SecondKey(crypto: Ed25519, pub: string, other: string) {
    other != pub && crypto.fingerprint(other) == crypto.fingerprint(pub)
  }

  /** The headers of the manifests the holder of a key signed. */
  function Headers(built: seq<Manifest>): (hs: seq<string>)
    ensures |hs| == |built| && forall i :: 0 <= i < |hs| ==> hs[i] == Header(built[i])
  {
    seq(|built|, i requires 0 <= i < |built| => Header(built[i]))
  }

  /** The manifest shows what one of the others shows, made at the same time, or their hashed texts collide. */
  ghost predicate ShowsOneOf(H: Sha256, m: Manifest, built: seq<Manifest>) {
    exists b :: && b in built && m.generated_at == b.generated_at
                && (ContentOf(m) == ContentOf(b) || Collides(H, Hashed(H, ContentOf(m)), Hashed(H, ContentOf(b))))
  }

  /**
   A manifest that verifies against a key's fingerprint shows exactly what one of the manifests signed
   with that key shows, made at the same time; anything else exhibits a hash collision, a second key
   with that fingerprint, or a forged signature: one that verifies on a header the holder never signed.
   */
  lemma TrustedMeansBuilt(H: Sha256, crypto: Ed25519, pub: string, built: seq<Manifest>, m: Manifest)
    requires ChainValid(H, m) && forall b :: b in built ==> ChainValid(H, b)
    requires Trusted(crypto, m.signature, Header(m), Some(crypto.fingerprint(pub)))
    ensures || ShowsOneOf(H, m, built)
            || SecondKey(crypto, pub, m.signature.value.public_key)
            || Forged(crypto, pub, Headers(built), Header(m), m.signature.value.value)
  {
    if m.signature.value.public_key == pub && Header(m) in Headers(built) {
      var i :| 0 <= i < |built| && Headers(built)[i] == Header(m);
      HeaderInjective(m, built[i]);
      SameRootSameDisplay(H, m, built[i]);
    }
  }

  /** What one build signed is trusted, and shows what that build shows, with no forgery and no second key. */
  method BuildIsTrusted(H: Sha256, crypto: Ed25519, report: Report, key: string) returns (m: Manifest)
    requires SignLaw(crypto)
    ensures ChainValid(H, m) && ShowsReport(H, m, report) && m.signature.Some?
    ensures var pub := crypto.publicKey(key);
      && Trusted(crypto, m.signature, Header(m), Some(crypto.fingerprint(pub)))
      && ShowsOneOf(H, m, [m])
      && !SecondKey(crypto, pub, m.signature.value.public_key)
      && !Forged(crypto, pub, Headers([m]), Header(m), m.signature.value.value)
  {
    m := BuildAuditManifest(H, crypto, report, Some(key));
    assert crypto.verify(crypto.publicKey(key), Header(m), crypto.sign(key, Header(m)));
    assert m in [m] && Headers([m])[0] == Header(m);
  }

  /** Through the diff's body hash, equal contents also mean equal diff bodies, or a collision on them. */
  lemma DiffBodyBound(H: Sha256, a: ReportDiff, b: ReportDiff)
    requires NormalizeDiff(H, a) == NormalizeDiff(H, b)
    ensures a == b || (a.body.Some? && b.body.Some? && Collides(H, {a.body.value}, {b.body.value}))
  {
    assert a.body.Some? ==> IsHexDigest(H(a.body.value));
    assert b.body.Some? ==> IsHexDigest(H(b.body.value));
    if a.body.Some? && b.body.Some? && a.body != b.body {
      assert a.body.value in {a.body.value} && b.body.value in {b.body.value};
    }
  }
}
