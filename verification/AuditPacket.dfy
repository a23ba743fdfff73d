/**
 The audit packet: several sessions' manifest roots and the cross-session governance figures folded
 into one packet root, with the same signature rules as a single manifest.

 Main results: `PacketRootBinds` (the packet root determines every session line and the governance
 figures), `PacketBindsSessions` (and through the session roots, everything each session displays),
 and `BuildThenVerifyPacket`.
 */
module AuditPacket {
  import opened Options
  import opened Hashing
  import opened Json
  import AI = AuditIntegrity

  const VERSION := "actradeck-audit-packet-manifest/v2"
  const MARKER := "actradeck-audit-packet-manifest"
  /** The version, a slash and the algorithm; split after the `t` that no hex digest contains. */
  const PACKET_DOMAIN := "act" + "radeck-audit-packet-manifest/v2/sha256-chain"

  datatype Flag = Flag(session_id: string, reason: string, risk: string, decision: string, subject: string)

  datatype Governance = Governance(
    session_count: string, hard_gate: string, soft_gate: string, auto_allowed: string,
    high_risk_op_count: string, secret_redaction_count: string,
    redaction_by_kind: seq<(string, string)>, flagged: seq<Flag>)

  /** One session line of a packet: the session's own manifest root and its gate counts. */
  datatype Line = Line(
    session_id: string, root: string, event_count: nat, events_truncated: string,
    hard_gate: string, soft_gate: string, auto_allowed: string)

  datatype PacketSession = PacketSession(line: Line, hash: string)

  datatype Packet = Packet(
    version: string, algorithm: string, generated_at: string, session_count: nat,
    sessions: seq<PacketSession>, governance: Governance, root: string, signature: Option<AI.Signature>)

  datatype Content = Content(
    generated_at: string, session_count: nat, lines: seq<Line>, governance: Governance)

  function Lines(sessions: seq<PacketSession>): (r: seq<Line>)
    ensures |r| == |sessions| && forall i :: 0 <= i < |r| ==> r[i] == sessions[i].line
  {
    seq(|sessions|, i requires 0 <= i < |sessions| => sessions[i].line)
  }

  function ContentOf(p: Packet): Content {
    Content(p.generated_at, p.session_count, Lines(p.sessions), p.governance)
  }

  // ---------------------------------------------------------------------------------------------
  // Canonical texts.
  // ---------------------------------------------------------------------------------------------

  function LineItems(s: Line): seq<Json> {
    [Str(s.session_id), Str(s.root), Int(s.event_count), Str(s.events_truncated), Str(s.hard_gate),
     Str(s.soft_gate), Str(s.auto_allowed)]
  }

  function CanonLine(s: Line): string {
    Encode(Arr(LineItems(s)))
  }

  function FlagItem(f: Flag): Json {
    Arr([Str(f.session_id), Str(f.reason), Str(f.risk), Str(f.decision), Str(f.subject)])
  }

  function Flags(fs: seq<Flag>): (r: seq<Json>)
    ensures |r| == |fs| && forall i :: 0 <= i < |fs| ==> r[i] == FlagItem(fs[i])
  {
    seq(|fs|, i requires 0 <= i < |fs| => FlagItem(fs[i]))
  }

  function GovernanceItems(g: Governance): seq<Json> {
    [Str(g.session_count), Str(g.hard_gate), Str(g.soft_gate), Str(g.auto_allowed),
     Str(g.high_risk_op_count), Str(g.secret_redaction_count), Arr(AI.Pairs(g.redaction_by_kind)),
     Arr(Flags(g.flagged))]
  }

  function CanonGovernance(g: Governance): string {
    Encode(Arr(GovernanceItems(g)))
  }

  // The layout of the hashed records, field by field.

  lemma LineLayout(s: Line)
    ensures CanonLine(s) == Encode(Arr(
      [Str(s.session_id), Str(s.root), Int(s.event_count), Str(s.events_truncated), Str(s.hard_gate),
       Str(s.soft_gate), Str(s.auto_allowed)]))
  {
  }

  lemma GovernanceLayout(g: Governance)
    ensures CanonGovernance(g) == Encode(Arr(
      [Str(g.session_count), Str(g.hard_gate), Str(g.soft_gate), Str(g.auto_allowed),
       Str(g.high_risk_op_count), Str(g.secret_redaction_count), Arr(AI.Pairs(g.redaction_by_kind)), Arr(Flags(g.flagged))]))
    ensures |Flags(g.flagged)| == |g.flagged|
    ensures forall k :: 0 <= k < |g.flagged| ==> FlagShown(Flags(g.flagged)[k], g.flagged[k])
  {
  }

  predicate FlagShown(j: Json, f: Flag) {
    j == Arr([Str(f.session_id), Str(f.reason), Str(f.risk), Str(f.decision), Str(f.subject)])
  }

  function OpeningItems(generated_at: string, count: nat): seq<Json> {
    [Str(VERSION), Str(generated_at), Int(count)]
  }

  function OpeningText(generated_at: string, count: nat): string {
    PACKET_DOMAIN + Encode(Arr(OpeningItems(generated_at, count)))
  }

  lemma CanonLineInjective(a: Line, b: Line)
    requires CanonLine(a) == CanonLine(b)
    ensures a == b
  {
    var x, y := LineItems(a), LineItems(b);
    EncodeDetermines(Arr(x), Arr(y));
    assert x[0] == y[0] && x[1] == y[1] && x[2] == y[2] && x[3] == y[3];
    assert x[4] == y[4] && x[5] == y[5] && x[6] == y[6];
  }

  lemma FlagsInjective(a: seq<Flag>, b: seq<Flag>)
    requires Flags(a) == Flags(b)
    ensures a == b
  {
    assert |a| == |Flags(a)| == |b|;
    forall i | 0 <= i < |a| ensures a[i] == b[i] {
      assert Flags(a)[i] == FlagItem(a[i]) && Flags(b)[i] == FlagItem(b[i]);
      var x, y := FlagItem(a[i]).items, FlagItem(b[i]).items;
      assert x[0] == y[0] && x[1] == y[1] && x[2] == y[2] && x[3] == y[3] && x[4] == y[4];
    }
  }

  lemma CanonGovernanceInjective(a: Governance, b: Governance)
    requires CanonGovernance(a) == CanonGovernance(b)
    ensures a == b
  {
    var x, y := GovernanceItems(a), GovernanceItems(b);
    EncodeDetermines(Arr(x), Arr(y));
    assert x[0] == y[0] && x[1] == y[1] && x[2] == y[2] && x[3] == y[3];
    assert x[4] == y[4] && x[5] == y[5] && x[6] == y[6] && x[7] == y[7];
    AI.PairsInjective(a.redaction_by_kind, b.redaction_by_kind);
    FlagsInjective(a.flagged, b.flagged);
  }

  // ---------------------------------------------------------------------------------------------
  // The packet chain, and the texts it hashes.
  // ---------------------------------------------------------------------------------------------

  lemma OpeningLayout(generated_at: string, count: nat)
    ensures OpeningText(generated_at, count) ==
      PACKET_DOMAIN + Encode(Arr([Str("actradeck-audit-packet-manifest/v2"), Str(generated_at), Int(count)]))
  {
  }

  function AfterLines(H: Sha256, c: Content, n: nat): (d: string)
    requires n <= |c.lines|
    ensures IsHexDigest(d)
  {
    if n == 0 then H(OpeningText(c.generated_at, c.session_count))
    else ChainStep(H, AfterLines(H, c, n - 1), CanonLine(c.lines[n - 1]))
  }

  function Root(H: Sha256, c: Content): string {
    ChainStep(H, AfterLines(H, c, |c.lines|), CanonGovernance(c.governance))
  }

  function HashedUpTo(H: Sha256, c: Content, n: nat): set<string>
    requires n <= |c.lines|
  {
    if n == 0 then {OpeningText(c.generated_at, c.session_count)}
    else HashedUpTo(H, c, n - 1) + {AfterLines(H, c, n - 1) + CanonLine(c.lines[n - 1])}
  }

  function Hashed(H: Sha256, c: Content): set<string> {
    HashedUpTo(H, c, |c.lines|) + {AfterLines(H, c, |c.lines|) + CanonGovernance(c.governance)}
  }

  predicate Agree(c: Content, m: nat, d: Content, n: nat) {
    && m == n <= |c.lines| && n <= |d.lines|
    && c.lines[..m] == d.lines[..n]
    && c.generated_at == d.generated_at && c.session_count == d.session_count
  }

  lemma AgreeExtend(c: Content, m: nat, d: Content, n: nat)
    requires Agree(c, m, d, n) && m < |c.lines| && n < |d.lines| && c.lines[m] == d.lines[n]
    ensures Agree(c, m + 1, d, n + 1)
  {
    assert c.lines[..m + 1] == c.lines[..m] + [c.lines[m]];
    assert d.lines[..n + 1] == d.lines[..n] + [d.lines[n]];
  }

  lemma OpeningBinds(H: Sha256, c: Content, d: Content)
    requires AfterLines(H, c, 0) == AfterLines(H, d, 0)
    ensures Agree(c, 0, d, 0) || Collides(H, HashedUpTo(H, c, 0), HashedUpTo(H, d, 0))
  {
    var s, t := OpeningText(c.generated_at, c.session_count), OpeningText(d.generated_at, d.session_count);
    assert s in HashedUpTo(H, c, 0) && t in HashedUpTo(H, d, 0);
    if s == t {
      var x, y := OpeningItems(c.generated_at, c.session_count), OpeningItems(d.generated_at, d.session_count);
      Cancel(PACKET_DOMAIN, Encode(Arr(x)), PACKET_DOMAIN, Encode(Arr(y)));
      EncodeDetermines(Arr(x), Arr(y));
      assert x[1] == y[1] && x[2] == y[2];
    }
  }

  lemma DomainIsNotHex(digest: string, x: string, y: string)
    requires IsHexDigest(digest)
    ensures digest + x != PACKET_DOMAIN + y
  {
    assert (digest + x)[2] == digest[2] && IsHexChar(digest[2]);
    assert PACKET_DOMAIN[2] == "act"[2] == 't';
    assert (PACKET_DOMAIN + y)[2] == PACKET_DOMAIN[2];
  }

  /** A link text starts with a hex digest; the opening text starts with the domain, which does not. */
  lemma LineIsNotOpening(H: Sha256, c: Content, m: nat, d: Content)
    requires 0 < m <= |c.lines| && AfterLines(H, c, m) == AfterLines(H, d, 0)
    ensures Collides(H, HashedUpTo(H, c, m), HashedUpTo(H, d, 0))
    ensures Collides(H, HashedUpTo(H, d, 0), HashedUpTo(H, c, m))
  {
    var prev := AfterLines(H, c, m - 1);
    var x, y := prev + CanonLine(c.lines[m - 1]), OpeningText(d.generated_at, d.session_count);
    DomainIsNotHex(prev, CanonLine(c.lines[m - 1]), Encode(Arr(OpeningItems(d.generated_at, d.session_count))));
    assert x in HashedUpTo(H, c, m) && y in HashedUpTo(H, d, 0);
  }

  /** Two chains so far have the same content, or their hashed texts collide. */
  ghost predicate Bound(H: Sha256, c: Content, m: nat, d: Content, n: nat)
    requires m <= |c.lines| && n <= |d.lines|
  {
    Agree(c, m, d, n) || Collides(H, HashedUpTo(H, c, m), HashedUpTo(H, d, n))
  }

  lemma LastLineBinds(H: Sha256, c: Content, m: nat, d: Content, n: nat)
    requires 0 < m <= |c.lines| && 0 < n <= |d.lines|
    requires AfterLines(H, c, m) == AfterLines(H, d, n)
    ensures (AfterLines(H, c, m - 1) == AfterLines(H, d, n - 1) && c.lines[m - 1] == d.lines[n - 1])
         || Bound(H, c, m, d, n)
  {
    var p, x := AfterLines(H, c, m - 1), CanonLine(c.lines[m - 1]);
    var q, y := AfterLines(H, d, n - 1), CanonLine(d.lines[n - 1]);
    StepBinds(H, p, x, q, y);
    if Collides(H, {p + x}, {q + y}) {
      CollidesMonotone(H, {p + x}, {q + y}, HashedUpTo(H, c, m), HashedUpTo(H, d, n));
    } else {
      CanonLineInjective(c.lines[m - 1], d.lines[n - 1]);
    }
  }

  lemma {:induction false} LinesBind(H: Sha256, c: Content, m: nat, d: Content, n: nat)
    requires m <= |c.lines| && n <= |d.lines|
    requires AfterLines(H, c, m) == AfterLines(H, d, n)
    ensures Bound(H, c, m, d, n)
    decreases m
  {
    if m == 0 || n == 0 {
      LinesBindStart(H, c, m, d, n);
    } else {
      LastLineBinds(H, c, m, d, n);
      if AfterLines(H, c, m - 1) == AfterLines(H, d, n - 1) && c.lines[m - 1] == d.lines[n - 1] {
        LinesBind(H, c, m - 1, d, n - 1);
        LinesBindNext(H, c, m - 1, d, n - 1);
      }
    }
  }

  /** A chain that has only opened agrees only with another that has only opened. */
  lemma LinesBindStart(H: Sha256, c: Content, m: nat, d: Content, n: nat)
    requires m <= |c.lines| && n <= |d.lines| && (m == 0 || n == 0)
    requires AfterLines(H, c, m) == AfterLines(H, d, n)
    ensures Bound(H, c, m, d, n)
  {
    if m == 0 && n == 0 {
      OpeningBinds(H, c, d);
    } else if m == 0 {
      LineIsNotOpening(H, d, n, c);
    } else {
      LineIsNotOpening(H, c, m, d);
    }
  }

  /** What binds so far binds with one more equal line. */
  lemma LinesBindNext(H: Sha256, c: Content, m: nat, d: Content, n: nat)
    requires m < |c.lines| && n < |d.lines| && c.lines[m] == d.lines[n]
    requires Bound(H, c, m, d, n)
    ensures Bound(H, c, m + 1, d, n + 1)
  {
    if Agree(c, m, d, n) {
      AgreeExtend(c, m, d, n);
    } else {
      CollidesMonotone(H, HashedUpTo(H, c, m), HashedUpTo(H, d, n), HashedUpTo(H, c, m + 1), HashedUpTo(H, d, n + 1));
    }
  }

  /** Equal packet roots mean equal packets, or an explicit collision. */
  lemma PacketRootBinds(H: Sha256, c: Content, d: Content)
    requires Root(H, c) == Root(H, d)
    ensures c == d || Collides(H, Hashed(H, c), Hashed(H, d))
  {
    var p, q := AfterLines(H, c, |c.lines|), AfterLines(H, d, |d.lines|);
    var x, y := CanonGovernance(c.governance), CanonGovernance(d.governance);
    StepBinds(H, p, x, q, y);
    if Collides(H, {p + x}, {q + y}) {
      CollidesMonotone(H, {p + x}, {q + y}, Hashed(H, c), Hashed(H, d));
    } else {
      CanonGovernanceInjective(c.governance, d.governance);
      LinesBind(H, c, |c.lines|, d, |d.lines|);
      assert c.lines[..|c.lines|] == c.lines && d.lines[..|d.lines|] == d.lines;
      if !Agree(c, |c.lines|, d, |d.lines|) {
        CollidesMonotone(H, HashedUpTo(H, c, |c.lines|), HashedUpTo(H, d, |d.lines|), Hashed(H, c), Hashed(H, d));
      }
    }
  }

  /** Everything hashed for a packet and for the manifests of its sessions. */
  function AllHashed(H: Sha256, c: Content, sessions: seq<AI.Content>): set<string> {
    Hashed(H, c) + set i, x | 0 <= i < |sessions| && x in AI.Hashed(H, sessions[i]) :: x
  }

  /** The sessions whose manifest roots a packet carries. */
  predicate Carries(H: Sha256, c: Content, sessions: seq<AI.Content>) {
    |sessions| == |c.lines| && forall i :: 0 <= i < |sessions| ==> c.lines[i].root == AI.Root(H, sessions[i])
  }

  /** The packet root alone determines what every one of its sessions displays. */
  lemma PacketBindsSessions(H: Sha256, c: Content, cs: seq<AI.Content>, d: Content, ds: seq<AI.Content>)
    requires Carries(H, c, cs) && Carries(H, d, ds)
    requires Root(H, c) == Root(H, d)
    ensures (c == d && cs == ds) || Collides(H, AllHashed(H, c, cs), AllHashed(H, d, ds))
  {
    PacketRootBinds(H, c, d);
    if c != d {
      CollidesMonotone(H, Hashed(H, c), Hashed(H, d), AllHashed(H, c, cs), AllHashed(H, d, ds));
    } else if cs != ds {
      var i :| 0 <= i < |cs| && cs[i] != ds[i];
      AI.RootBindsContent(H, cs[i], ds[i]);
      CollidesMonotone(H, AI.Hashed(H, cs[i]), AI.Hashed(H, ds[i]), AllHashed(H, c, cs), AllHashed(H, d, ds));
    }
  }

  // ---------------------------------------------------------------------------------------------
  // Build and verify.
  // ---------------------------------------------------------------------------------------------

  function HeaderItems(p: Packet): seq<Json> {
    [Str(VERSION), Str(p.generated_at), Int(p.session_count), Str(p.root)]
  }

  function Header(p: Packet): string {
    Encode(Arr(HeaderItems(p)))
  }

  predicate LinkOk(H: Sha256, p: Packet, i: nat)
    requires i < |p.sessions|
  {
    p.sessions[i].hash == AfterLines(H, ContentOf(p), i + 1)
  }

  /** The next digest of the chain over a packet's content. */
  lemma NextLink(H: Sha256, p: Packet, i: nat)
    requires i < |p.sessions|
    ensures ChainStep(H, AfterLines(H, ContentOf(p), i), CanonLine(p.sessions[i].line)) == AfterLines(H, ContentOf(p), i + 1)
  {
    assert ContentOf(p).lines[i] == p.sessions[i].line;
  }

  ghost predicate ChainValid(H: Sha256, p: Packet) {
    && p.session_count == |p.sessions|
    && (forall i :: 0 <= i < |p.sessions| ==> LinkOk(H, p, i))
    && p.root == Root(H, ContentOf(p))
  }

  method BuildPacketManifest(
      H: Sha256, crypto: AI.Ed25519, generated_at: string, lines: seq<Line>, governance: Governance,
      key: Option<string>)
    returns (p: Packet)
    ensures ContentOf(p) == Content(generated_at, |lines|, lines, governance)
    ensures ChainValid(H, p)
    ensures p.version == VERSION && p.algorithm == AI.ALGORITHM
    ensures key.None? ==> p.signature.None?
    ensures key.Some? ==> p.signature == Some(AI.Signature(
      crypto.publicKey(key.value), crypto.fingerprint(crypto.publicKey(key.value)),
      crypto.sign(key.value, Header(p))))
  {
    ghost var c := Content(generated_at, |lines|, lines, governance);
    var prev := H(OpeningText(generated_at, |lines|));
    var sessions: seq<PacketSession> := [];
    for i := 0 to |lines|
      invariant |sessions| == i
      invariant prev == AfterLines(H, c, i)
      invariant forall j :: 0 <= j < i ==> sessions[j] == PacketSession(lines[j], AfterLines(H, c, j + 1))
    {
      prev := ChainStep(H, prev, CanonLine(lines[i]));
      sessions := sessions + [PacketSession(lines[i], prev)];
    }
    var root := ChainStep(H, prev, CanonGovernance(governance));
    p := Packet(VERSION, AI.ALGORITHM, generated_at, |lines|, sessions, governance, root, None);
    assert Lines(p.sessions) == lines;
    if key.Some? {
      var pub := crypto.publicKey(key.value);
      p := p.(signature := Some(AI.Signature(pub, crypto.fingerprint(pub), crypto.sign(key.value, Header(p)))));
    }
  }

  /** Recomputing every link and the root. */
  method CheckChain(H: Sha256, p: Packet) returns (valid: bool)
    ensures valid <==> ChainValid(H, p)
  {
    ghost var c := ContentOf(p);
    var prev := H(OpeningText(p.generated_at, p.session_count));
    valid := |p.sessions| == p.session_count;
    for i := 0 to |p.sessions|
      invariant prev == AfterLines(H, c, i)
      invariant valid <==> (|p.sessions| == p.session_count && forall j :: 0 <= j < i ==> LinkOk(H, p, j))
    {
      NextLink(H, p, i);
      prev := ChainStep(H, prev, CanonLine(p.sessions[i].line));
      assert LinkOk(H, p, i) <==> prev == p.sessions[i].hash;
      if prev != p.sessions[i].hash {
        valid := false;
      }
    }
    if ChainStep(H, prev, CanonGovernance(p.governance)) != p.root {
      valid := false;
    }
  }

  method VerifyPacketManifest(H: Sha256, crypto: AI.Ed25519, p: Packet, pin: Option<string>)
    returns (r: AI.VerifyResult)
    ensures var wellFormed := p.version == VERSION && p.algorithm == AI.ALGORITHM;
      if wellFormed then AI.VerdictExact(crypto, p.signature, Header(p), pin, ChainValid(H, p), r)
      else r == AI.VerifyResult(false, false, false, None, None,
                                if p.version != VERSION && "actradeck-audit-packet-manifest/" <= p.version then AI.UnsupportedVersion else AI.Malformed)
  {
    if AI.OtherVersion(p.version, VERSION, MARKER) {
      return AI.VerifyResult(false, false, false, None, None, AI.UnsupportedVersion);
    }
    if p.version != VERSION || p.algorithm != AI.ALGORITHM {
      return AI.VerifyResult(false, false, false, None, None, AI.Malformed);
    }
    var chainValid := CheckChain(H, p);
    if !chainValid {
      return AI.VerifyResult(false, false, p.signature.Some?, None, None, AI.ChainMismatch);
    }
    return AI.SignatureVerdict(crypto, p.signature, Header(p), pin);
  }

  /** A signed packet verifies under its signer's fingerprint. */
  method BuildThenVerifyPacket(
      H: Sha256, crypto: AI.Ed25519, generated_at: string, lines: seq<Line>, governance: Governance, key: string)
    returns (r: AI.VerifyResult)
    requires AI.SignLaw(crypto)
    ensures r == AI.VerifyResult(true, true, true, Some(true), Some(true), AI.Verified)
  {
    var p := BuildPacketManifest(H, crypto, generated_at, lines, governance, Some(key));
    assert crypto.verify(crypto.publicKey(key), Header(p), crypto.sign(key, Header(p)));
    r := VerifyPacketManifest(H, crypto, p, Some(crypto.fingerprint(crypto.publicKey(key))));
  }

  lemma HeaderLayout(p: Packet)
    ensures Header(p) == Encode(Arr(
      [Str("actradeck-audit-packet-manifest/v2"), Str(p.generated_at), Int(p.session_count), Str(p.root)]))
  {
  }

  lemma HeaderInjective(a: Packet, b: Packet)
    requires Header(a) == Header(b)
    ensures a.generated_at == b.generated_at && a.session_count == b.session_count && a.root == b.root
  {
    var x, y := HeaderItems(a), HeaderItems(b);
    EncodeDetermines(Arr(x), Arr(y));
    assert x[1] == y[1] && x[2] == y[2] && x[3] == y[3];
  }

  /** Two chain-valid packets with one root show the same, or their hashed texts collide. */
  lemma SameRootSamePacket(H: Sha256, p: Packet, q: Packet)
    requires ChainValid(H, p) && ChainValid(H, q) && p.root == q.root
    ensures ContentOf(p) == ContentOf(q) || Collides(H, Hashed(H, ContentOf(p)), Hashed(H, ContentOf(q)))
  {
    PacketRootBinds(H, ContentOf(p), ContentOf(q));
  }

  function Headers(built: seq<Packet>): (hs: seq<string>)
    ensures |hs| == |built| && forall i :: 0 <= i < |hs| ==> hs[i] == Header(built[i])
  {
    seq(|built|, i requires 0 <= i < |built| => Header(built[i]))
  }

  ghost predicate ShowsOneOf(H: Sha256, p: Packet, built: seq<Packet>) {
    exists b :: && b in built
                && (ContentOf(p) == ContentOf(b) || Collides(H, Hashed(H, ContentOf(p)), Hashed(H, ContentOf(b))))
  }

  /** A packet that verifies against a key's fingerprint is one of those signed with that key; anything else exhibits a collision, a second key or a forgery. */
  lemma TrustedPacketMeansBuilt(H: Sha256, crypto: AI.Ed25519, pub: string, built: seq<Packet>, p: Packet)
    requires ChainValid(H, p) && forall b :: b in built ==> ChainValid(H, b)
    requires AI.Trusted(crypto, p.signature, Header(p), Some(crypto.fingerprint(pub)))
    ensures || ShowsOneOf(H, p, built)
            || AI.SecondKey(crypto, pub, p.signature.value.public_key)
            || AI.Forged(crypto, pub, Headers(built), Header(p), p.signature.value.value)
  {
    if p.signature.value.public_key == pub && Header(p) in Headers(built) {
      var i :| 0 <= i < |built| && Headers(built)[i] == Header(p);
      assert built[i] in built;
      HeaderInjective(p, built[i]);
      SameRootSamePacket(H, p, built[i]);
    }
  }
}
