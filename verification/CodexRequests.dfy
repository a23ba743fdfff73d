/**
 One codex approval request: what it asks the approval bridge, and how the bridge's result is told to
 the codex process.

 Main results: `BodyReadsBack` and `GoAheadExact` (codex goes ahead exactly when the bridge allowed),
 `CodexRequestIsHitOrCard`, and `CodexSameOperationIff` / `CodexGrantAnswersIff` (exactly which later
 requests a session allow answers, by what they are about), with `CodexSecretExact`.
 */
module CodexRequests {
  import opened Options
  import opened Json
  import opened Hashing
  import opened Gate
  import opened ApprovalBridge
  import Provenance = BridgeProvenance

  /** A JSON-RPC id is a number or a text. */
  datatype Id = Num(n: int) | Text(s: string)

  datatype RequestKind = Command | File | Permissions | LegacyExec | LegacyPatch

  function KeyOf(id: Id): string {
    match id
    case Num(n) => IntText(n)
    case Text(s) => s
  }

  // ---------------------------------------------------------------------------------------------
  // The answer codex reads.
  // ---------------------------------------------------------------------------------------------

  function ItemDecision(d: Option<Decision>): string {
    match d
    case Some(Allow) => "accept"
    case Some(AllowForSession) => "acceptForSession"
    case Some(CancelIt) => "cancel"
    case _ => "decline"
  }

  function ReviewDecision(d: Option<Decision>): string {
    match d
    case Some(Allow) => "approved"
    case Some(AllowForSession) => "approved_for_session"
    case Some(CancelIt) => "abort"
    case _ => "denied"
  }

  function ResultBody(kind: RequestKind, d: Option<Decision>): Json {
    match kind
    case Permissions => Obj([Member("permissions", Obj([])), Member("scope", Str("turn"))])
    case Command | File => Obj([Member("decision", Str(ItemDecision(d)))])
    case LegacyExec | LegacyPatch => Obj([Member("decision", Str(ReviewDecision(d)))])
  }

  /** What a codex process understands from a response body, independently of how it was built: unknown words refuse. */
  function ReadBody(kind: RequestKind, body: Json): Decision {
    match body
    case Obj(members) =>
      (match Lookup(members, "decision")
       case Some(Str(w)) =>
         if kind.Permissions? then Deny
         else if kind.Command? || kind.File? then
           (if w == "accept" then Allow else if w == "acceptForSession" then AllowForSession
            else if w == "cancel" then CancelIt else Deny)
         else
           (if w == "approved" then Allow else if w == "approved_for_session" then AllowForSession
            else if w == "abort" then CancelIt else Deny)
       case _ => Deny)
    case _ => Deny
  }

  /** Codex reads back the operator's decision; no decision, and every decision on permissions, reads as a refusal. */
  lemma BodyReadsBack(kind: RequestKind, d: Option<Decision>)
    ensures ReadBody(kind, ResultBody(kind, d)) == if kind.Permissions? || d.None? then Deny else d.value
    ensures kind.Permissions? ==> ResultBody(kind, d) == Obj([Member("permissions", Obj([])), Member("scope", Str("turn"))])
  {
    if kind.Permissions? {
      assert Lookup([Member("permissions", Obj([])), Member("scope", Str("turn"))], "decision") == None by {
        assert "permissions"[0] != "decision"[0] && "scope"[0] != "decision"[0];
      }
    } else {
      WordsDiffer();
    }
  }

  lemma WordsDiffer()
    ensures "accept" != "acceptForSession" && "cancel" != "accept" && "cancel" != "acceptForSession"
    ensures "decline" != "accept" && "decline" != "acceptForSession" && "decline" != "cancel"
    ensures "approved" != "approved_for_session" && "abort" != "approved" && "abort" != "approved_for_session"
    ensures "denied" != "approved" && "denied" != "approved_for_session" && "denied" != "abort"
  {
    assert |"accept"| == 6 && |"acceptForSession"| == 16 && |"approved"| == 8 && |"approved_for_session"| == 20;
    assert "cancel"[0] == 'c' && "decline"[0] == 'd' && "denied"[0] == 'd' && "abort"[1] == 'b';
  }

  /** The decision a bridge result stands for: an unattended allow is a single allow, never a session one. */
  function DecisionOf(r: Result): Option<Decision> {
    if r.decision.Some? then r.decision else if r.behavior == Allowed then Some(Allow) else None
  }

  /** The results the bridge produces. */
  predicate BridgeResult(r: Result) {
    r == Defer || r == AutoAllow || r == GrantAllow || (exists d :: r == Answer(d)) || (exists o :: r == Refused(o))
  }

  /** Codex is told to go ahead exactly when the bridge allowed, and for the session only if the operator said so. */
  lemma GoAheadExact(kind: RequestKind, r: Result)
    requires BridgeResult(r)
    ensures var told := ReadBody(kind, ResultBody(kind, DecisionOf(r)));
      && (told in {Allow, AllowForSession} <==> !kind.Permissions? && r.behavior == Allowed)
      && (told == AllowForSession ==> r == Answer(AllowForSession))
  {
    BodyReadsBack(kind, DecisionOf(r));
  }

  // ---------------------------------------------------------------------------------------------
  // What the bridge is asked about.
  // ---------------------------------------------------------------------------------------------

  function TextField(p: Json, key: string): Option<string> {
    match p
    case Obj(members) =>
      (match Lookup(members, key)
       case Some(Str(s)) => Some(s)
       case _ => None)
    case _ => None
  }

  function JoinTexts(items: seq<Json>): string {
    if items == [] then ""
    else
      var rest := JoinTexts(items[1..]);
      if !items[0].Str? then rest
      else if AnyText(items[1..]) then items[0].s + " " + rest
      else items[0].s
  }

  predicate AnyText(items: seq<Json>) {
    exists k :: 0 <= k < |items| && items[k].Str?
  }

  /** The tool and input put to the gate: none for file and permission requests, whose parameters carry no content. */
  function GateInput(kind: RequestKind, p: Json): Option<(string, Json)> {
    match kind
    case Command =>
      var command := TextField(p, "command");
      if command.Some? && command.value != "" then Some(("Bash", Obj([Member("command", Str(command.value))]))) else None
    case LegacyExec =>
      (match p
       case Obj(members) =>
         (match Lookup(members, "command")
          case Some(Arr(items)) =>
            var command := JoinTexts(items);
            if command != "" then Some(("Bash", Obj([Member("command", Str(command))]))) else None
          case _ => None)
       case _ => None)
    case LegacyPatch =>
      (match p
       case Obj(members) =>
         var changes := Lookup(members, "fileChanges");
         if changes.Some? && (changes.value.Obj? || changes.value.Arr?)
         then Some(("Edit", Obj([Member("content", Str(Encode(changes.value)))])))
         else None
       case _ => None)
    case _ => None
  }

  function CardTool(kind: RequestKind): string {
    match kind
    case Command | LegacyExec => "codex/command"
    case File | LegacyPatch => "codex/file"
    case Permissions => "codex/permissions"
  }

  function CodexInput(session: string, kind: RequestKind, p: Json): HookInput {
    match GateInput(kind, p)
    case Some((tool, input)) => HookInput(session, Some(tool), Some(input), "PermissionRequest", None, None)
    case None => HookInput(session, Some(CardTool(kind)), None, "PermissionRequest", None, None)
  }

  /** A codex request never suspends in the bridge and is never persisted: it is a session hit or a card. */
  lemma CodexRequestIsHitOrCard(env: Env, s: State, session: string, kind: RequestKind, p: Json, id: string)
    ensures var i, s' := CodexInput(session, kind, p), Log(s, Called(CodexInput(session, kind, p)));
      Start(env, s, i, id) ==
      if !HasSecret(env.c, i) && Sig(env, i) in s.cache then Settle(s', |s.log|, AutoAllow)
      else Ask(env, s', |s.log|, i, GatePermissionRequest(env.c, i), None, id)
  {
    SecretTriggerExact(env.c, CodexInput(session, kind, p));
    assert "PermissionRequest"[1] == 'e' && "PreToolUse"[1] == 'r';
  }

  // ---------------------------------------------------------------------------------------------
  // What a request is about.
  // ---------------------------------------------------------------------------------------------

  /** A text cut at every space. */
  function Words(s: string): (ws: seq<string>)
    ensures ws != []
  {
    if s == "" then [""]
    else
      var rest := Words(s[1..]);
      if s[0] == ' ' then [""] + rest else [[s[0]] + rest[0]] + rest[1..]
  }

  /** The texts of an argument list, in order; anything else in it is skipped. */
  function Texts(items: seq<Json>): seq<string> {
    if items == [] then []
    else if items[0].Str? then [items[0].s] + Texts(items[1..]) else Texts(items[1..])
  }

  function WordsOfAll(texts: seq<string>): seq<string> {
    if texts == [] then [] else Words(texts[0]) + WordsOfAll(texts[1..])
  }

  /** What a request asks about: the words of a command, file changes, or nothing readable but the tool on its card. */
  datatype Subject = RunWords(words: seq<string>) | Change(changes: Json) | Unreadable(tool: string)

  function FieldOf(p: Json, key: string): Option<Json> {
    if p.Obj? then Lookup(p.members, key) else None
  }

  function SubjectOf(kind: RequestKind, p: Json): Subject {
    match kind
    case Command =>
      var f := FieldOf(p, "command");
      if f.Some? && f.value.Str? && f.value.s != "" then RunWords(Words(f.value.s)) else Unreadable("codex/command")
    case LegacyExec =>
      var f := FieldOf(p, "command");
      var words := if f.Some? && f.value.Arr? then WordsOfAll(Texts(f.value.items)) else [];
      if words == [] || words == [""] then Unreadable("codex/command") else RunWords(words)
    case LegacyPatch =>
      var f := FieldOf(p, "fileChanges");
      if f.Some? && (f.value.Obj? || f.value.Arr?) then Change(f.value) else Unreadable("codex/file")
    case File => Unreadable("codex/file")
    case Permissions => Unreadable("codex/permissions")
  }

  lemma {:induction false} WordsThen(a: string, b: string)
    ensures Words(a + " " + b) == Words(a) + Words(b)
  {
    var s := a + " " + b;
    if a == "" {
      assert s[1..] == b;
    } else {
      assert s[1..] == a[1..] + " " + b;
      WordsThen(a[1..], b);
    }
  }

  lemma {:induction false} WordsDetermine(a: string, b: string)
    requires Words(a) == Words(b)
    ensures a == b
  {
    if a == "" || b == "" {
      assert Words("") == [""];
      assert |Words(a)| == 1 && Words(a)[0] == "";
    } else {
      var v, w := Words(a[1..]), Words(b[1..]);
      assert a[0] == b[0] && v == w by { FirstWord(a); FirstWord(b); }
      WordsDetermine(a[1..], b[1..]);
    }
  }

  /** The first character and the words after it can be read off the words. */
  lemma FirstWord(s: string)
    requires s != ""
    ensures s[0] == ' ' <==> Words(s)[0] == ""
    ensures s[0] == ' ' ==> Words(s)[1..] == Words(s[1..])
    ensures s[0] != ' ' ==> Words(s)[0][0] == s[0] && [Words(s)[0][1..]] + Words(s)[1..] == Words(s[1..])
  {
    var rest := Words(s[1..]);
    assert rest == [rest[0]] + rest[1..];
  }

  /** Joining an argument list keeps its words, all of them and in order. */
  lemma {:induction false} JoinKeepsWords(items: seq<Json>)
    ensures AnyText(items) <==> Texts(items) != []
    ensures Texts(items) == [] ==> JoinTexts(items) == ""
    ensures Texts(items) != [] ==> Words(JoinTexts(items)) == WordsOfAll(Texts(items))
  {
    if items != [] {
      JoinKeepsWords(items[1..]);
      AnyTextStep(items);
      if items[0].Str? {
        var texts := Texts(items);
        assert texts[1..] == Texts(items[1..]);
        if AnyText(items[1..]) {
          WordsThen(items[0].s, JoinTexts(items[1..]));
        } else {
          assert WordsOfAll(texts) == Words(items[0].s) + [];
        }
      }
    }
  }

  lemma AnyTextStep(items: seq<Json>)
    requires items != []
    ensures AnyText(items) <==> items[0].Str? || AnyText(items[1..])
  {
    if AnyText(items[1..]) {
      var k :| 0 <= k < |items[1..]| && items[1..][k].Str?;
      assert items[k + 1].Str?;
    }
    if AnyText(items) && !items[0].Str? {
      var k :| 0 <= k < |items| && items[k].Str?;
      assert items[1..][k - 1].Str?;
    }
  }

  lemma EmptyWords(s: string)
    ensures Words(s) == [""] <==> s == ""
  {
    if Words(s) == [""] { WordsDetermine(s, ""); }
  }

  /** What is put to the gate is what the request is about: a command with those words, or the encoded changes. */
  lemma GateInputExact(kind: RequestKind, p: Json)
    ensures match SubjectOf(kind, p) {
        case RunWords(words) =>
          exists command :: Words(command) == words && GateInput(kind, p) == Some(("Bash", Obj([Member("command", Str(command))])))
        case Change(changes) => GateInput(kind, p) == Some(("Edit", Obj([Member("content", Str(Encode(changes)))])))
        case Unreadable(tool) => GateInput(kind, p) == None && CardTool(kind) == tool
      }
  {
    if kind == LegacyExec && p.Obj? {
      var f := Lookup(p.members, "command");
      if f.Some? && f.value.Arr? {
        JoinKeepsWords(f.value.items);
        EmptyWords(JoinTexts(f.value.items));
      }
    }
  }

  /** What a codex request leaks: its command, or its encoded changes; a request without readable content leaks nothing. */
  lemma CodexSecretExact(c: Classifier, session: string, kind: RequestKind, p: Json)
    ensures match SubjectOf(kind, p) {
        case RunWords(words) =>
          exists command :: Words(command) == words && (HasSecret(c, CodexInput(session, kind, p)) <==> Leaks(c, command))
        case Change(changes) => HasSecret(c, CodexInput(session, kind, p)) <==> Leaks(c, Encode(changes))
        case Unreadable(_) => !HasSecret(c, CodexInput(session, kind, p))
      }
  {
    var i := CodexInput(session, kind, p);
    GateInputExact(kind, p);
    CodexScans(session, kind, p);
    forall f ensures f in ScannedFields(i) <==> IsScanned(i, f) { ScannedFieldsExact(i, f); }
  }

  lemma CodexScans(session: string, kind: RequestKind, p: Json)
    ensures ScannedFields(CodexInput(session, kind, p)) ==
      match GateInput(kind, p) { case None => [] case Some((_, input)) => [input.members[0].value.s] }
  {
    match GateInput(kind, p)
    case None => CardToolIsOther(kind);
    case Some((tool, input)) =>
      if tool == "Bash" { CommandScan(input.members[0].value.s); } else { ContentScan(input.members[0].value.s); }
  }

  lemma CommandScan(s: string)
    ensures Lookup([Member("command", Str(s))], "command") == Some(Str(s))
  {
  }

  lemma ContentScan(s: string)
    ensures var ms := [Member("content", Str(s))];
      && Lookup(ms, "content") == Some(Str(s)) && Lookup(ms, "new_string") == None
      && Lookup(ms, "new_str") == None && Lookup(ms, "file_path") == None
  {
    assert |"content"| == 7 && |"new_string"| == 10 && |"new_str"| == 7 && |"file_path"| == 9;
    assert "content"[0] == 'c' && "new_str"[0] == 'n';
  }

  lemma CardToolIsOther(kind: RequestKind)
    ensures ClassifyTool(CardTool(kind)) == OtherTool
  {
    var name := CardTool(kind);
    assert name[0] == 'c';
    assert "Bash"[0] == 'B' && "BashOutput"[0] == 'B' && "Edit"[0] == 'E' && "Write"[0] == 'W';
    assert "MultiEdit"[0] == 'M' && "NotebookEdit"[0] == 'N' && "mcp__"[0] == 'm';
    assert "WebSearch"[0] == 'W' && "WebFetch"[0] == 'W';
  }

  /** The operation a codex request signs: its command, or the tool and whole input, or the card tool on no input. */
  lemma CodexOperation(c: Classifier, session: string, kind: RequestKind, p: Json)
    ensures var i, g := CodexInput(session, kind, p), GateInput(kind, p);
      OperationOf(c, i) == match g {
        case None => Operation(OtherTool, None, ToolAndInput(i))
        case Some((tool, input)) =>
          if tool == "Bash" then Operation(Bash, Some(c.risk(input.members[0].value.s)), input.members[0].value.s)
          else Operation(Edit, None, ToolAndInput(i))
      }
    ensures GateInput(kind, p).Some? ==>
      var (tool, input) := GateInput(kind, p).value;
      || (tool == "Bash" && exists t :: input == Obj([Member("command", Str(t))]))
      || (tool == "Edit" && exists t :: input == Obj([Member("content", Str(t))]))
  {
    var i := CodexInput(session, kind, p);
    match GateInput(kind, p)
    case None => CardToolIsOther(kind);
    case Some((tool, input)) =>
      assert |"command"| == 7 && |"content"| == 7 && "content"[2] == 'n' && "command"[2] == 'm' && |"file_path"| == 9;
      assert Lookup(input.members, "command") == if tool == "Bash" then Some(input.members[0].value) else None;
      assert Lookup(input.members, "file_path") == None;
  }

  /** Two calls whose operand is the tool and the whole input sign the same operation exactly when both are equal. */
  lemma ToolAndInputDetermine(i: HookInput, j: HookInput)
    ensures ToolAndInput(i) == ToolAndInput(j) <==> ToolName(i) == ToolName(j) && InputValue(i) == InputValue(j)
  {
    if ToolAndInput(i) == ToolAndInput(j) {
      InputTextNulFree(i);
      InputTextNulFree(j);
      NulSplits(ToolName(i), InputText(i), ToolName(j), InputText(j));
      EncodeDetermines(InputValue(i), InputValue(j));
    }
  }

  /**
   Two codex requests of any kinds sign the same operation exactly when they are about the same: the same
   words of a command, however it was passed, the same file changes, or, without readable content, the
   same tool on the card.
   */
  lemma CodexSameOperationIff(c: Classifier, session: string, k: RequestKind, p: Json, l: RequestKind, q: Json)
    ensures OperationOf(c, CodexInput(session, k, p)) == OperationOf(c, CodexInput(session, l, q)) <==> SubjectOf(k, p) == SubjectOf(l, q)
  {
    var i, j := CodexInput(session, k, p), CodexInput(session, l, q);
    CodexOperation(c, session, k, p);
    CodexOperation(c, session, l, q);
    ToolAndInputDetermine(i, j);
    assert |"Bash"| == 4 && |"Edit"| == 4 && "Bash"[0] == 'B' && "Edit"[0] == 'E';
    SubjectIff(k, p, l, q);
  }

  lemma SubjectIff(k: RequestKind, p: Json, l: RequestKind, q: Json)
    ensures SubjectOf(k, p) == SubjectOf(l, q) <==>
      GateInput(k, p) == GateInput(l, q) && (GateInput(k, p).None? ==> CardTool(k) == CardTool(l))
  {
    GateInputExact(k, p);
    GateInputExact(l, q);
    match (SubjectOf(k, p), SubjectOf(l, q))
    case (RunWords(v), RunWords(w)) =>
      var a :| Words(a) == v && GateInput(k, p) == Some(("Bash", Obj([Member("command", Str(a))])));
      var b :| Words(b) == w && GateInput(l, q) == Some(("Bash", Obj([Member("command", Str(b))])));
      if v == w { WordsDetermine(a, b); }
      assert Obj([Member("command", Str(a))]).members[0] == Member("command", Str(a));
      assert Obj([Member("command", Str(b))]).members[0] == Member("command", Str(b));
    case (Change(v), Change(w)) =>
      assert Obj([Member("content", Str(Encode(v)))]).members[0] == Member("content", Str(Encode(v)));
      assert Obj([Member("content", Str(Encode(w)))]).members[0] == Member("content", Str(Encode(w)));
      if Encode(v) == Encode(w) { EncodeDetermines(v, w); }
    case _ =>
      assert "Bash"[0] == 'B' && "Edit"[0] == 'E';
  }

  /** An argument list without spaces is read back exactly from the command put to the gate. */
  lemma LegacyExecReadsBack(session: string, members: seq<Member>, items: seq<Json>)
    requires Lookup(members, "command") == Some(Arr(items))
    requires Texts(items) != [] && Texts(items) != [""]
    requires forall k :: 0 <= k < |Texts(items)| ==> ' ' !in Texts(items)[k]
    ensures exists command :: RunsCommand(CodexInput(session, LegacyExec, Obj(members)), command) && Words(command) == Texts(items)
  {
    PlainWords(Texts(items));
    GateInputExact(LegacyExec, Obj(members));
    var command :| Words(command) == Texts(items)
      && GateInput(LegacyExec, Obj(members)) == Some(("Bash", Obj([Member("command", Str(command))])));
    var ms := [Member("command", Str(command))];
    assert Lookup(ms, "command") == Some(ms[0].value);
    assert RunsCommand(CodexInput(session, LegacyExec, Obj(members)), command);
  }

  lemma {:induction false} PlainWords(texts: seq<string>)
    requires forall k :: 0 <= k < |texts| ==> ' ' !in texts[k]
    ensures WordsOfAll(texts) == texts
  {
    if texts != [] {
      PlainWord(texts[0]);
      PlainWords(texts[1..]);
    }
  }

  lemma {:induction false} PlainWord(s: string)
    requires ' ' !in s
    ensures Words(s) == [s]
  {
    if s != "" {
      PlainWord(s[1..]);
      assert s[0] in s && s == [s[0]] + s[1..];
    }
  }

  /**
   What the operator's session allow of a waiting codex request answers, from any reachable state: a
   later request is answered unattended exactly when it has no secret and its signature was granted
   before, or the allowed request had no secret either and both are about the same, short of a hash
   collision.
   */
  lemma CodexGrantAnswersIff(
    env: Env, s0: State, ts: seq<Step>, request: string, persist: bool, now: int, saved: bool,
    session: string, k: RequestKind, p: Json, l: RequestKind, q: Json, id: string)
    requires Initial(s0) && ValidRun(env, s0, ts)
    requires var s := Run(env, s0, ts);
      && request in s.pending
      && Provenance.CalledAt(s.log, s.pending[request].call)
      && s.log[s.pending[request].call].input == CodexInput(session, k, p)
    ensures var s, granted, i := Run(env, s0, ts), CodexInput(session, k, p), CodexInput(session, l, q);
      var s' := ResolveStep(env, s, request, AllowForSession, persist, now, saved);
      Start(env, s', i, id) == Settle(Log(s', Called(i)), |s'.log|, AutoAllow) <==>
      (&& !HasSecret(env.c, i)
       && (|| Sig(env, i) in s.cache
           || (!HasSecret(env.c, granted)
               && (SubjectOf(k, p) == SubjectOf(l, q)
                   || Collides(env.H, {SignedText(OperationOf(env.c, granted))}, {SignedText(OperationOf(env.c, i))})))))
  {
    var s, granted, i := Run(env, s0, ts), CodexInput(session, k, p), CodexInput(session, l, q);
    var s' := ResolveStep(env, s, request, AllowForSession, persist, now, saved);
    GrantCached(env, s0, ts, request, persist, now, saved);
    CodexHitIff(env, s', session, l, q, id);
    CodexSameOperationIff(env.c, session, k, p, l, q);
    SignatureIff(env, granted, i);
  }

  /** A session allow of a waiting request adds its signature to the cache, unless it is a bypass or leaks a secret. */
  lemma GrantCached(env: Env, s0: State, ts: seq<Step>, request: string, persist: bool, now: int, saved: bool)
    requires Initial(s0) && ValidRun(env, s0, ts) && request in Run(env, s0, ts).pending
    ensures var s := Run(env, s0, ts);
      var call := s.pending[request].call;
      && Provenance.CalledAt(s.log, call)
      && ResolveStep(env, s, request, AllowForSession, persist, now, saved).cache ==
         s.cache + if Provenance.Quiet(env, s.log[call].input) then {Sig(env, s.log[call].input)} else {}
  {
    var s := Run(env, s0, ts);
    Provenance.RunKeeps(env, s0.disk, s0, ts);
    assert Provenance.Backed(env, s.log, request, s.pending[request]);
  }

  /** A codex request is answered unattended exactly when it has no secret and its signature is in the cache. */
  lemma CodexHitIff(env: Env, s: State, session: string, l: RequestKind, q: Json, id: string)
    ensures var i := CodexInput(session, l, q);
      Start(env, s, i, id) == Settle(Log(s, Called(i)), |s.log|, AutoAllow) <==> !HasSecret(env.c, i) && Sig(env, i) in s.cache
  {
    var i := CodexInput(session, l, q);
    CodexRequestIsHitOrCard(env, s, session, l, q, id);
    HitIsNotCard(env, Log(s, Called(i)), |s.log|, i, id);
  }

  lemma SignatureIff(env: Env, i: HookInput, j: HookInput)
    ensures var x, y := OperationOf(env.c, i), OperationOf(env.c, j);
      Sig(env, i) == Sig(env, j) <==> x == y || Collides(env.H, {SignedText(x)}, {SignedText(y)})
  {
    if Sig(env, i) == Sig(env, j) { SignatureIdentifies(env.H, env.c, i, j); }
  }

  lemma HitIsNotCard(env: Env, s: State, call: nat, i: HookInput, id: string)
    ensures Settle(s, call, AutoAllow) != Ask(env, s, call, i, GatePermissionRequest(env.c, i), None, id)
  {
    var hit, card := Settle(s, call, AutoAllow), Ask(env, s, call, i, GatePermissionRequest(env.c, i), None, id);
    assert hit.log[|s.log|].Settled? && card.log[|s.log|].Card?;
  }

  /** Failing inputs: file requests about different items, and a patch without readable changes, all sign the same. */
  lemma FileRequestsShare(c: Classifier, session: string, p: Json, q: Json)
    ensures OperationOf(c, CodexInput(session, File, p)) == OperationOf(c, CodexInput(session, File, q))
    ensures OperationOf(c, CodexInput(session, File, p)) == OperationOf(c, CodexInput(session, LegacyPatch, Obj([])))
  {
    CodexSameOperationIff(c, session, File, p, File, q);
    CodexSameOperationIff(c, session, File, p, LegacyPatch, Obj([]));
  }

  /** Command requests, by contrast, sign their command: equal operations mean equal commands. */
  lemma CommandRequestsAreExact(c: Classifier, session: string, ms: seq<Member>, ns: seq<Member>, a: string, b: string)
    requires Lookup(ms, "command") == Some(Str(a)) && a != "" && Lookup(ns, "command") == Some(Str(b)) && b != ""
    ensures OperationOf(c, CodexInput(session, Command, Obj(ms))) == OperationOf(c, CodexInput(session, Command, Obj(ns))) <==> a == b
  {
    CodexSameOperationIff(c, session, Command, Obj(ms), Command, Obj(ns));
    if Words(a) == Words(b) { WordsDetermine(a, b); }
  }
}
