/**
 What the approval bridge decides about one hook call before any state is consulted: whether it must
 be approved, why, and the signature under which an approval can be remembered.

 The command classifier and the redactor are arbitrary functions; tool names are classified as the
 sidecar does.  Main results: `NormalGateExact` and `BypassGateExact` (exactly which calls must be
 approved, and for which reason), `SignatureIdentifies` (equal signatures mean the same operation, or a
 hash collision) and `OperandMeaning` (exactly which calls are the same operation, with
 `EditPathCanImitate` and `WriteSignsLikeEdit` where that is more than the same action).
 */
module Gate {
  import opened Options
  import opened Json
  import opened Hashing
  import opened Policies

  datatype ToolKind = Bash | Edit | Mcp | WebSearch | OtherTool
  datatype Risk = Low | Medium | High
  datatype Trigger = Destructive | Secret | Both

  /** The judgements the bridge takes from the classifier and the redactor. */
  datatype Classifier = Classifier(
    risk: string -> Risk,
    persistDenied: string -> bool,
    networkEgress: string -> bool,
    categories: string -> set<Category>,
    secretPath: string -> bool,
    redact: string -> string,
    markerKinds: string -> set<string>,
    knownKind: string -> bool)

  datatype HookInput = HookInput(
    sessionId: string,
    toolName: Option<string>,
    toolInput: Option<Json>,
    hookEvent: string,
    permissionMode: Option<string>,
    cwd: Option<string>)

  datatype GateDecision = Ungated | Gated(trigger: Trigger, kinds: set<string>)

  function ToolName(i: HookInput): string {
    if i.toolName.Some? then i.toolName.value else ""
  }

  function ClassifyTool(name: string): ToolKind {
    if name in {"Bash", "BashOutput"} then Bash
    else if name in {"Edit", "Write", "MultiEdit", "NotebookEdit"} then Edit
    else if "mcp__" <= name then Mcp
    else if name in {"WebSearch", "WebFetch"} then WebSearch
    else OtherTool
  }

  function Kind(i: HookInput): ToolKind {
    ClassifyTool(ToolName(i))
  }

  function Lookup(members: seq<Member>, key: string): Option<Json> {
    if members == [] then None
    else if members[0].key == key then Some(members[0].value)
    else Lookup(members[1..], key)
  }

  /** A field of the tool input, when the input is an object and the field a string. */
  function Field(i: HookInput, key: string): Option<string> {
    match i.toolInput
    case Some(Obj(members)) =>
      (match Lookup(members, key)
       case Some(Str(s)) => Some(s)
       case _ => None)
    case _ => None
  }

  /** The whole tool input as text, `null` when there is none. */
  function InputText(i: HookInput): string {
    Encode(if i.toolInput.Some? then i.toolInput.value else Null)
  }

  predicate IsBypass(i: HookInput) {
    i.permissionMode == Some("bypassPermissions")
  }

  // ---------------------------------------------------------------------------------------------
  // What a call does, by the name of its tool.
  // ---------------------------------------------------------------------------------------------

  predicate RunsCommand(i: HookInput, command: string) {
    ToolName(i) in {"Bash", "BashOutput"} && Field(i, "command") == Some(command)
  }

  predicate EditsFile(i: HookInput, path: string) {
    ToolName(i) in {"Edit", "Write", "MultiEdit", "NotebookEdit"} && Field(i, "file_path") == Some(path)
  }

  predicate ReachesOut(i: HookInput) {
    "mcp__" <= ToolName(i) || ToolName(i) == "WebFetch"
  }

  /** The texts scanned for secrets: the command, an edit's contents and path, or an MCP tool's whole input. */
  predicate IsScanned(i: HookInput, text: string) {
    || RunsCommand(i, text)
    || EditsFile(i, text)
    || (ToolName(i) in {"Edit", "Write", "MultiEdit", "NotebookEdit"}
        && exists key :: key in {"content", "new_string", "new_str"} && Field(i, key) == Some(text))
    || ("mcp__" <= ToolName(i) && text == InputText(i))
  }

  /** Nothing about the call itself calls for approval: no risky command, no secret file, nothing external. */
  ghost predicate Harmless(c: Classifier, i: HookInput) {
    && (forall command :: RunsCommand(i, command) ==> c.risk(command) == Low)
    && (forall path :: EditsFile(i, path) ==> !c.secretPath(path))
    && !ReachesOut(i)
  }

  /** The policy categories a call falls into. */
  ghost predicate FallsUnder(c: Classifier, i: HookInput, cat: Category) {
    || (exists command :: RunsCommand(i, command) && cat in c.categories(command))
    || (cat == SecretEgress && HasSecret(c, i) && exists command :: RunsCommand(i, command) && c.networkEgress(command))
    || (cat == SecretFileEdit && exists path :: EditsFile(i, path) && c.secretPath(path))
    || (cat == ExternalTool && ReachesOut(i))
  }

  // ---------------------------------------------------------------------------------------------
  // Secrets.
  // ---------------------------------------------------------------------------------------------

  function OptionalField(i: HookInput, key: string): seq<string> {
    if Field(i, key).Some? then [Field(i, key).value] else []
  }

  /** The closed list of fields scanned for secrets. */
  function ScannedFields(i: HookInput): seq<string> {
    match Kind(i)
    case Bash => OptionalField(i, "command")
    case Edit =>
      OptionalField(i, "content") + OptionalField(i, "new_string") + OptionalField(i, "new_str")
      + OptionalField(i, "file_path")
    case Mcp => [InputText(i)]
    case _ => []
  }

  lemma NamesApart(i: HookInput)
    ensures Kind(i) == Bash <==> ToolName(i) in {"Bash", "BashOutput"}
    ensures Kind(i) == Edit <==> ToolName(i) in {"Edit", "Write", "MultiEdit", "NotebookEdit"}
    ensures Kind(i) == Mcp <==> "mcp__" <= ToolName(i)
    ensures ReachesOut(i) <==> Kind(i) == Mcp || (Kind(i) == WebSearch && ToolName(i) == "WebFetch")
  {
    assert |"Bash"| == 4 && |"BashOutput"| == 10 && |"Edit"| == 4 && |"Write"| == 5;
    assert |"MultiEdit"| == 9 && |"NotebookEdit"| == 12 && |"WebFetch"| == 8;
    assert "Bash"[0] == 'B' && "BashOutput"[0] == 'B' && "Edit"[0] == 'E' && "Write"[0] == 'W';
    assert "MultiEdit"[0] == 'M' && "NotebookEdit"[0] == 'N' && "WebFetch"[0] == 'W' && "mcp__"[0] == 'm';
  }

  /** The closed list holds exactly the texts to be scanned. */
  lemma ScannedFieldsExact(i: HookInput, text: string)
    ensures text in ScannedFields(i) <==> IsScanned(i, text)
  {
    NamesApart(i);
    if Kind(i) == Edit {
      assert "content" in {"content", "new_string", "new_str"} && "new_string" in {"content", "new_string", "new_str"};
      assert "new_str" in {"content", "new_string", "new_str"};
    }
  }

  /** The redactor would change this text. */
  predicate Leaks(c: Classifier, text: string) {
    text != "" && c.redact(text) != text
  }

  ghost predicate HasSecret(c: Classifier, i: HookInput) {
    exists f :: IsScanned(i, f) && f != "" && c.redact(f) != f
  }

  ghost predicate IsSecretKind(c: Classifier, i: HookInput, k: string) {
    exists f :: IsScanned(i, f) && f != "" && c.redact(f) != f && k in c.markerKinds(c.redact(f)) && c.knownKind(k)
  }

  function KnownKinds(c: Classifier, text: string): set<string> {
    set k | k in c.markerKinds(c.redact(text)) && c.knownKind(k)
  }

  function LeakedKinds(c: Classifier, fields: seq<string>): set<string> {
    if fields == [] then {}
    else
      LeakedKinds(c, fields[..|fields| - 1])
      + (if Leaks(c, fields[|fields| - 1]) then KnownKinds(c, fields[|fields| - 1]) else {})
  }

  predicate AnyLeaks(c: Classifier, fields: seq<string>) {
    exists f :: f in fields && Leaks(c, f)
  }

  lemma LeaksStep(c: Classifier, fields: seq<string>, n: nat)
    requires n < |fields|
    ensures AnyLeaks(c, fields[..n + 1]) <==> AnyLeaks(c, fields[..n]) || Leaks(c, fields[n])
    ensures LeakedKinds(c, fields[..n + 1]) ==
            LeakedKinds(c, fields[..n]) + if Leaks(c, fields[n]) then KnownKinds(c, fields[n]) else {}
  {
    assert fields[..n + 1] == fields[..n] + [fields[n]];
    assert fields[..n + 1][..n] == fields[..n];
  }

  /** The scan, as the bridge runs it. */
  method DetectSecretInInput(c: Classifier, i: HookInput) returns (secret: bool, kinds: set<string>)
    ensures secret <==> HasSecret(c, i)
    ensures forall k :: k in kinds <==> IsSecretKind(c, i, k)
    ensures kinds == SecretKinds(c, i)
  {
    var fields := ScannedFields(i);
    secret, kinds := false, {};
    for n := 0 to |fields|
      invariant secret <==> AnyLeaks(c, fields[..n])
      invariant kinds == LeakedKinds(c, fields[..n])
    {
      LeaksStep(c, fields, n);
      if Leaks(c, fields[n]) {
        secret := true;
        kinds := kinds + KnownKinds(c, fields[n]);
      }
    }
    assert fields[..|fields|] == fields;
    SecretInExact(c, i);
    assert kinds == SecretKinds(c, i);
    forall k ensures k in kinds <==> IsSecretKind(c, i, k) { SecretKindsExact(c, i, k); }
  }

  function SecretKinds(c: Classifier, i: HookInput): set<string> {
    LeakedKinds(c, ScannedFields(i))
  }

  lemma {:induction false} LeakedKindsExact(c: Classifier, fields: seq<string>, k: string)
    ensures k in LeakedKinds(c, fields) <==>
            exists f :: f in fields && Leaks(c, f) && k in c.markerKinds(c.redact(f)) && c.knownKind(k)
  {
    if fields != [] {
      var n := |fields| - 1;
      LeakedKindsExact(c, fields[..n], k);
      assert fields == fields[..n] + [fields[n]];
    }
  }

  lemma SecretKindsExact(c: Classifier, i: HookInput, k: string)
    ensures k in SecretKinds(c, i) <==> IsSecretKind(c, i, k)
  {
    LeakedKindsExact(c, ScannedFields(i), k);
    forall f ensures f in ScannedFields(i) <==> IsScanned(i, f) { ScannedFieldsExact(i, f); }
  }

  predicate SecretIn(c: Classifier, i: HookInput) {
    AnyLeaks(c, ScannedFields(i))
  }

  lemma SecretInExact(c: Classifier, i: HookInput)
    ensures SecretIn(c, i) <==> HasSecret(c, i)
  {
    forall f ensures f in ScannedFields(i) <==> IsScanned(i, f) { ScannedFieldsExact(i, f); }
  }

  // ---------------------------------------------------------------------------------------------
  // The gate.
  // ---------------------------------------------------------------------------------------------

  predicate RequiresDestructive(c: Classifier, i: HookInput) {
    if Kind(i) == Bash && Field(i, "command").Some? then c.risk(Field(i, "command").value) != Low
    else if Kind(i) == Edit && Field(i, "file_path").Some? then c.secretPath(Field(i, "file_path").value)
    else Kind(i) == Mcp || (Kind(i) == WebSearch && ToolName(i) == "WebFetch")
  }

  function RequiresHumanApproval(c: Classifier, i: HookInput): GateDecision {
    var destructive, secret := RequiresDestructive(c, i), SecretIn(c, i);
    if !destructive && !secret then Ungated
    else
      Gated(
        if destructive && secret then Both else if secret then Secret else Destructive,
        if secret then SecretKinds(c, i) else {})
  }

  function GatePermissionRequest(c: Classifier, i: HookInput): GateDecision {
    var secret := SecretIn(c, i);
    Gated(if secret then Both else Destructive, if secret then SecretKinds(c, i) else {})
  }

  /** The gate outside bypass mode. */
  function NormalGate(c: Classifier, i: HookInput): GateDecision {
    if i.hookEvent == "PermissionRequest" then GatePermissionRequest(c, i) else RequiresHumanApproval(c, i)
  }

  function OpCategories(c: Classifier, i: HookInput): set<Category> {
    if Kind(i) == Bash && Field(i, "command").Some? then
      var command := Field(i, "command").value;
      c.categories(command) + (if c.networkEgress(command) && SecretIn(c, i) then {SecretEgress} else {})
    else if Kind(i) == Edit && Field(i, "file_path").Some? then
      if c.secretPath(Field(i, "file_path").value) then {SecretFileEdit} else {}
    else if Kind(i) == Mcp || (Kind(i) == WebSearch && ToolName(i) == "WebFetch") then {ExternalTool}
    else {}
  }

  function PolicyGate(c: Classifier, i: HookInput, matched: set<Category>): GateDecision {
    var secretInvolved := SecretEgress in matched || SecretFileEdit in matched;
    var destructiveInvolved := matched - {SecretEgress, SecretFileEdit} != {};
    Gated(
      if secretInvolved && destructiveInvolved then Both else if secretInvolved then Secret else Destructive,
      if secretInvolved then SecretKinds(c, i) else {})
  }

  /** Policy at work for one call: the repository's entry if it has one, the default otherwise. */
  function EffectiveLivePolicy(
    fallback: Option<PolicyConfig>, repos: map<string, RepoEntry>, envEnabled: bool, scope: Option<string>)
    : Option<PolicyConfig>
  {
    if fallback.None? then None
    else
      var file := if scope.Some? && scope.value in repos then repos[scope.value].config else fallback.value;
      Some(PolicyConfig(file.enabled && envEnabled, file.categories))
  }

  /** The gate in bypass mode. */
  function BypassGate(c: Classifier, i: HookInput, live: Option<PolicyConfig>): GateDecision {
    if live.None? || !live.value.enabled then Ungated
    else
      var matched := OpCategories(c, i) * live.value.categories;
      if matched == {} then Ungated else PolicyGate(c, i, matched)
  }

  predicate SecretTriggered(d: GateDecision) {
    d.Gated? && d.trigger != Destructive
  }

  /** Outside bypass mode a gated call is secret-triggered exactly when some scanned field leaks, and a leaking call is always gated. */
  lemma SecretTriggerExact(c: Classifier, i: HookInput)
    ensures SecretTriggered(NormalGate(c, i)) <==> HasSecret(c, i)
    ensures HasSecret(c, i) ==> NormalGate(c, i).Gated?
  {
    SecretInExact(c, i);
  }

  /** Why a call is gated: it leaks, it calls for approval of itself, or both. */
  function TriggerFor(leaks: bool, risky: bool): Trigger {
    if !leaks then Destructive else if risky then Both else Secret
  }

  /**
   Outside bypass mode: a permission request is always gated, and any other call is gated exactly when it
   leaks a secret, runs a command that is not low-risk, edits a secret file, or reaches out.  The
   trigger says which, and the kinds shown are exactly those of the leaking texts.
   */
  lemma NormalGateExact(c: Classifier, i: HookInput)
    ensures var risky := i.hookEvent == "PermissionRequest" || !Harmless(c, i);
      var gate := NormalGate(c, i);
      && (gate.Gated? <==> risky || HasSecret(c, i))
      && (gate.Gated? ==> gate.trigger == TriggerFor(HasSecret(c, i), risky))
      && (gate.Gated? ==> forall k :: k in gate.kinds <==> IsSecretKind(c, i, k))
  {
    SecretInExact(c, i);
    DestructiveExact(c, i);
    forall k ensures k in SecretKinds(c, i) <==> IsSecretKind(c, i, k) { SecretKindsExact(c, i, k); }
  }

  lemma DestructiveExact(c: Classifier, i: HookInput)
    ensures RequiresDestructive(c, i) <==> !Harmless(c, i)
  {
    NamesApart(i);
    if Kind(i) == Bash && Field(i, "command").Some? {
      assert RunsCommand(i, Field(i, "command").value);
    } else if Kind(i) == Edit && Field(i, "file_path").Some? {
      assert EditsFile(i, Field(i, "file_path").value);
    }
  }

  lemma OpCategoriesExact(c: Classifier, i: HookInput, cat: Category)
    ensures cat in OpCategories(c, i) <==> FallsUnder(c, i, cat)
  {
    NamesApart(i);
    SecretInExact(c, i);
    if Kind(i) == Bash && Field(i, "command").Some? {
      assert RunsCommand(i, Field(i, "command").value);
    } else if Kind(i) == Edit && Field(i, "file_path").Some? {
      assert EditsFile(i, Field(i, "file_path").value);
    }
  }

  /** The policy in force for a repository covers this category: its own entry decides if it has one, the default otherwise. */
  predicate Covers(
    fallback: Option<PolicyConfig>, repos: map<string, RepoEntry>, envEnabled: bool, scope: Option<string>, cat: Category)
  {
    && envEnabled && fallback.Some?
    && if scope.Some? && scope.value in repos
       then repos[scope.value].config.enabled && cat in repos[scope.value].config.categories
       else fallback.value.enabled && cat in fallback.value.categories
  }

  /** A category the call falls under and the policy covers. */
  ghost predicate Matches(
    c: Classifier, i: HookInput, fallback: Option<PolicyConfig>, repos: map<string, RepoEntry>, envEnabled: bool,
    scope: Option<string>, cat: Category)
  {
    FallsUnder(c, i, cat) && Covers(fallback, repos, envEnabled, scope, cat)
  }

  /**
   In bypass mode the gate closes exactly when an enabled policy covers a category the call falls under.
   Egress of secrets and edits of secret files are the secret reasons, every other category the other.
   */
  lemma BypassGateExact(
    c: Classifier, i: HookInput, fallback: Option<PolicyConfig>, repos: map<string, RepoEntry>,
    envEnabled: bool, scope: Option<string>)
    ensures var gate := BypassGate(c, i, EffectiveLivePolicy(fallback, repos, envEnabled, scope));
      var secret := exists cat :: cat in {SecretEgress, SecretFileEdit} && Matches(c, i, fallback, repos, envEnabled, scope, cat);
      var other := exists cat :: cat !in {SecretEgress, SecretFileEdit} && Matches(c, i, fallback, repos, envEnabled, scope, cat);
      && (gate.Gated? <==> secret || other)
      && (gate.Gated? ==> gate.trigger == TriggerFor(secret, other))
      && (gate.Gated? ==> forall k :: k in gate.kinds <==> secret && IsSecretKind(c, i, k))
  {
    var matched := Matched(c, i, EffectiveLivePolicy(fallback, repos, envEnabled, scope));
    MatchedExact(c, i, fallback, repos, envEnabled, scope);
    forall k ensures k in SecretKinds(c, i) <==> IsSecretKind(c, i, k) { SecretKindsExact(c, i, k); }
    SecretOrOther(matched);
  }

  /** The categories of a call that the policy at work gates. */
  function Matched(c: Classifier, i: HookInput, live: Option<PolicyConfig>): set<Category> {
    if live.Some? && live.value.enabled then OpCategories(c, i) * live.value.categories else {}
  }

  lemma MatchedExact(
    c: Classifier, i: HookInput, fallback: Option<PolicyConfig>, repos: map<string, RepoEntry>,
    envEnabled: bool, scope: Option<string>)
    ensures forall cat :: cat in Matched(c, i, EffectiveLivePolicy(fallback, repos, envEnabled, scope)) <==>
      Matches(c, i, fallback, repos, envEnabled, scope, cat)
  {
    forall cat ensures cat in OpCategories(c, i) <==> FallsUnder(c, i, cat) { OpCategoriesExact(c, i, cat); }
  }

  lemma SecretOrOther(matched: set<Category>)
    ensures matched == {} <==>
      !(exists cat :: cat in {SecretEgress, SecretFileEdit} && cat in matched)
      && !(exists cat :: cat !in {SecretEgress, SecretFileEdit} && cat in matched)
    ensures (SecretEgress in matched || SecretFileEdit in matched) <==>
      exists cat :: cat in {SecretEgress, SecretFileEdit} && cat in matched
    ensures matched - {SecretEgress, SecretFileEdit} != {} <==>
      exists cat :: cat !in {SecretEgress, SecretFileEdit} && cat in matched
  {
    var rest := matched - {SecretEgress, SecretFileEdit};
    assert forall cat :: cat in rest <==> cat !in {SecretEgress, SecretFileEdit} && cat in matched;
    assert rest != {} <==> exists cat :: cat in rest;
    assert matched != {} <==> exists cat :: cat in matched;
  }

  /** The calls whose approval may outlive the process: a medium-risk shell command that the structure check lets through. */
  predicate PersistableBash(c: Classifier, i: HookInput) {
    && Kind(i) == Bash
    && Field(i, "command").Some?
    && c.risk(Field(i, "command").value) == Medium
    && !c.persistDenied(Field(i, "command").value)
  }

  // ---------------------------------------------------------------------------------------------
  // Signatures.
  // ---------------------------------------------------------------------------------------------

  datatype Operation = Operation(kind: ToolKind, risk: Option<Risk>, operand: string)

  function KindText(k: ToolKind): string {
    match k
    case Bash => "bash"
    case Edit => "edit"
    case Mcp => "mcp"
    case WebSearch => "websearch"
    case OtherTool => "other"
  }

  function RiskText(r: Option<Risk>): string {
    match r
    case None => "n/a"
    case Some(Low) => "low"
    case Some(Medium) => "medium"
    case Some(High) => "high"
  }

  /** A tool name and its whole input, separated by a NUL character. */
  function ToolAndInput(i: HookInput): string {
    ToolName(i) + "\0" + InputText(i)
  }

  function OperationOf(c: Classifier, i: HookInput): Operation {
    if Kind(i) == Bash && Field(i, "command").Some? then
      Operation(Bash, Some(c.risk(Field(i, "command").value)), Field(i, "command").value)
    else if Kind(i) == Edit && Field(i, "file_path").Some? then
      Operation(Edit, None, Field(i, "file_path").value)
    else Operation(Kind(i), None, ToolAndInput(i))
  }

  function SignedText(op: Operation): string {
    Encode(Arr([Str(KindText(op.kind)), Str(RiskText(op.risk)), Str(op.operand)]))
  }

  function Signature(H: Sha256, c: Classifier, i: HookInput): (s: string)
    ensures IsHexDigest(s)
  {
    H(SignedText(OperationOf(c, i)))
  }

  lemma SignedTextDetermines(a: Operation, b: Operation)
    requires SignedText(a) == SignedText(b)
    ensures a == b
  {
    var x := Arr([Str(KindText(a.kind)), Str(RiskText(a.risk)), Str(a.operand)]);
    var y := Arr([Str(KindText(b.kind)), Str(RiskText(b.risk)), Str(b.operand)]);
    EncodeDetermines(x, y);
    assert x.items[0] == y.items[0] && x.items[1] == y.items[1] && x.items[2] == y.items[2];
    KindTextDetermines(a.kind, b.kind);
    RiskTextDetermines(a.risk, b.risk);
  }

  lemma KindTextDetermines(a: ToolKind, b: ToolKind)
    requires KindText(a) == KindText(b)
    ensures a == b
  {
    assert |KindText(Mcp)| == 3 && |KindText(WebSearch)| == 9 && |KindText(OtherTool)| == 5;
    assert KindText(Bash)[0] == 'b' && KindText(Edit)[0] == 'e';
  }

  lemma RiskTextDetermines(a: Option<Risk>, b: Option<Risk>)
    requires RiskText(a) == RiskText(b)
    ensures a == b
  {
    assert |RiskText(Some(Medium))| == 6 && |RiskText(Some(High))| == 4;
    assert RiskText(None)[0] == 'n' && RiskText(Some(Low))[0] == 'l';
  }

  /** Equal signatures: the same kind, risk and operand, or a collision on the two signed texts. */
  lemma SignatureIdentifies(H: Sha256, c: Classifier, i: HookInput, j: HookInput)
    requires Signature(H, c, i) == Signature(H, c, j)
    ensures OperationOf(c, i) == OperationOf(c, j)
            || Collides(H, {SignedText(OperationOf(c, i))}, {SignedText(OperationOf(c, j))})
  {
    var x, y := SignedText(OperationOf(c, i)), SignedText(OperationOf(c, j));
    if x == y {
      SignedTextDetermines(OperationOf(c, i), OperationOf(c, j));
    } else {
      assert x in {x} && y in {y};
    }
  }

  /** Which of the three forms of operand a call has. */
  datatype Shape = ByCommand | ByPath | ByInput

  function ShapeOf(i: HookInput): Shape {
    if Kind(i) == Bash && Field(i, "command").Some? then ByCommand
    else if Kind(i) == Edit && Field(i, "file_path").Some? then ByPath
    else ByInput
  }

  predicate NulFree(s: string) {
    forall k :: 0 <= k < |s| ==> s[k] != '\0'
  }

  lemma {:induction false} NulSplits(a: string, x: string, b: string, y: string)
    requires a + "\0" + x == b + "\0" + y && NulFree(x) && NulFree(y)
    ensures a == b && x == y
  {
    var s := a + "\0" + x;
    assert s[|a|] == '\0' && s[|b|] == '\0';
    assert a == s[..|a|] && b == s[..|b|];
    assert x == s[|a| + 1..] && y == s[|b| + 1..];
  }

  lemma InputTextNulFree(i: HookInput)
    ensures NulFree(InputText(i))
  {
    EncodePrintable(if i.toolInput.Some? then i.toolInput.value else Null);
  }

  /** The input as the bridge reads it: absent and null are the same. */
  function InputValue(i: HookInput): Json {
    if i.toolInput.Some? then i.toolInput.value else Null
  }

  /** What the signature is documented to tell apart: the tool, and the command, the file, or the whole input it is for. */
  predicate SameAction(i: HookInput, j: HookInput) {
    && ShapeOf(i) == ShapeOf(j) && ToolName(i) == ToolName(j)
    && match ShapeOf(i) {
         case ByCommand => Field(i, "command") == Field(j, "command")
         case ByPath => Field(i, "file_path") == Field(j, "file_path")
         case ByInput => InputValue(i) == InputValue(j)
       }
  }

  /** Two tools of one kind on the same command or the same file: the signature holds their kind and not their names. */
  predicate OtherToolSameOperand(i: HookInput, j: HookInput) {
    && ShapeOf(i) == ShapeOf(j) && ToolName(i) != ToolName(j)
    && match ShapeOf(i) {
         case ByCommand => Field(i, "command") == Field(j, "command")
         case ByPath => Field(i, "file_path") == Field(j, "file_path")
         case ByInput => false
       }
  }

  /** A file path that spells out another edit call: its tool name, a NUL and its input. */
  predicate PathImitates(i: HookInput, j: HookInput) {
    && ShapeOf(i) == ByPath && ShapeOf(j) == ByInput && Kind(j) == Edit
    && Field(i, "file_path") == Some(ToolAndInput(j))
  }

  /**
   Calls sign the same operation exactly when they are the same action, or two tools of one kind are used
   on the same command or file, or one's file path spells out the other.
   */
  lemma OperandMeaning(c: Classifier, i: HookInput, j: HookInput)
    ensures OperationOf(c, i) == OperationOf(c, j) <==>
            SameAction(i, j) || OtherToolSameOperand(i, j) || PathImitates(i, j) || PathImitates(j, i)
  {
    if ShapeOf(i) == ByInput && ShapeOf(j) == ByInput && ToolAndInput(i) == ToolAndInput(j) {
      InputTextNulFree(i);
      InputTextNulFree(j);
      NulSplits(ToolName(i), InputText(i), ToolName(j), InputText(j));
      EncodeDetermines(InputValue(i), InputValue(j));
    }
  }

  /** Without a NUL in a file path, the operation is the action up to the tool's name among tools of one kind. */
  lemma OperandMeaningPlain(c: Classifier, i: HookInput, j: HookInput)
    requires Field(i, "file_path").Some? ==> NulFree(Field(i, "file_path").value)
    requires Field(j, "file_path").Some? ==> NulFree(Field(j, "file_path").value)
    ensures OperationOf(c, i) == OperationOf(c, j) <==> SameAction(i, j) || OtherToolSameOperand(i, j)
  {
    OperandMeaning(c, i, j);
    assert ToolAndInput(i)[|ToolName(i)|] == '\0';
    assert ToolAndInput(j)[|ToolName(j)|] == '\0';
  }

  /** The corner: editing an oddly named file signs the same as an edit call without a file. */
  lemma EditPathCanImitate(c: Classifier)
    ensures exists i: HookInput, j: HookInput ::
              && i.hookEvent == "PermissionRequest" && j.hookEvent == "PermissionRequest"
              && OperationOf(c, i) == OperationOf(c, j)
              && !SameAction(i, j)
  {
    var j := HookInput("s", Some("Edit"), None, "PermissionRequest", None, None);
    var members := [Member("file_path", Str(ToolAndInput(j)))];
    var i := HookInput("s", Some("Edit"), Some(Obj(members)), "PermissionRequest", None, None);
    assert Lookup(members, "file_path") == Some(Str(ToolAndInput(j)));
    assert Kind(i) == Edit && Kind(j) == Edit;
    OperandMeaning(c, i, j);
    assert PathImitates(i, j);
    assert !SameAction(i, j);
  }

  /** Another failing family: writing a file and editing it sign the same, whatever is written. */
  lemma WriteSignsLikeEdit(c: Classifier, path: string, written: string, replaced: string)
    ensures var w := Some(Obj([Member("file_path", Str(path)), Member("content", Str(written))]));
      var e := Some(Obj([Member("file_path", Str(path)), Member("new_string", Str(replaced))]));
      var i := HookInput("s", Some("Write"), w, "PreToolUse", None, None);
      var j := HookInput("s", Some("Edit"), e, "PreToolUse", None, None);
      OperationOf(c, i) == OperationOf(c, j) && !SameAction(i, j)
  {
    var w := [Member("file_path", Str(path)), Member("content", Str(written))];
    var e := [Member("file_path", Str(path)), Member("new_string", Str(replaced))];
    assert Lookup(w, "file_path") == Some(Str(path)) && Lookup(e, "file_path") == Some(Str(path));
    assert |"Write"| == 5 && |"Edit"| == 4;
  }
}
