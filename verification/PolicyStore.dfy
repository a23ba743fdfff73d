/**
 The layered approval policy file: a default and per-repository overrides, rewritten one key at a time
 by several daemons, each of which also keeps the policy in memory.

 JSON objects are maps here; the text of the file is left to the JSON library.  Main results:
 `LoadSaveIdentityIff` (load after save is the identity exactly on normal policies), `DeltaTouchesOnlyItsKey`
 with its exact label condition, `LastWriteWins` over any interleaving of writers, `LockstepIff`,
 and the label normaliser's `SanitizeTwiceIff` / `SanitizeSettles`.
 */
module PolicyStore {
  import opened Options
  import opened Text
  import opened Hashing
  import opened Policies

  datatype FileValue = JNull | JBool(b: bool) | JNum(n: int) | JStr(s: string) | JArr(items: seq<FileValue>) | JObj(fields: map<string, FileValue>)

  datatype Layered = Layered(fallback: PolicyConfig, repos: map<string, RepoEntry>)

  datatype Delta = SetDefault(config: PolicyConfig) | SetRepo(scope: string, entry: RepoEntry) | RemoveRepo(scope: string)

  // ---------------------------------------------------------------------------------------------
  // Category names.
  // ---------------------------------------------------------------------------------------------

  const ALL: seq<Category> :=
    [RecursiveRm, DiskDestroy, HistoryRewrite, DbDrop, ForkBomb, SecretEgress,
     PermChange, InlineCode, SecretFileEdit, ExternalTool, MigrateProd, HighRiskOther]

  function Name(c: Category): string {
    match c
    case RecursiveRm => "recursive-rm"
    case DiskDestroy => "disk-destroy"
    case HistoryRewrite => "history-rewrite"
    case DbDrop => "db-drop"
    case ForkBomb => "fork-bomb"
    case SecretEgress => "secret-egress"
    case PermChange => "perm-change"
    case InlineCode => "inline-code"
    case SecretFileEdit => "secret-file-edit"
    case ExternalTool => "external-tool"
    case MigrateProd => "migrate-prod"
    case HighRiskOther => "high-risk-other"
  }

  /** A first letter, a third letter and a length that tell the names apart. */
  lemma NameShape(c: Category)
    ensures |Name(c)| >= 3
    ensures |Name(c)| == match c {
              case RecursiveRm => 12 case DiskDestroy => 12 case HistoryRewrite => 15 case DbDrop => 7
              case ForkBomb => 9 case SecretEgress => 13 case PermChange => 11 case InlineCode => 11
              case SecretFileEdit => 16 case ExternalTool => 13 case MigrateProd => 12 case HighRiskOther => 15
            }
    ensures Name(c)[0] == match c {
              case RecursiveRm => 'r' case DiskDestroy => 'd' case HistoryRewrite => 'h' case DbDrop => 'd'
              case ForkBomb => 'f' case SecretEgress => 's' case PermChange => 'p' case InlineCode => 'i'
              case SecretFileEdit => 's' case ExternalTool => 'e' case MigrateProd => 'm' case HighRiskOther => 'h'
            }
    ensures c == HistoryRewrite ==> Name(c)[2] == 's'
    ensures c == HighRiskOther ==> Name(c)[2] == 'g'
  {
  }

  lemma NameDetermines(c: Category, d: Category)
    requires Name(c) == Name(d)
    ensures c == d
  {
    NameShape(c);
    NameShape(d);
  }

  lemma AllCategories(c: Category)
    ensures c in ALL
  {
    assert ALL[0] == RecursiveRm && ALL[1] == DiskDestroy && ALL[2] == HistoryRewrite && ALL[3] == DbDrop;
    assert ALL[4] == ForkBomb && ALL[5] == SecretEgress && ALL[6] == PermChange && ALL[7] == InlineCode;
    assert ALL[8] == SecretFileEdit && ALL[9] == ExternalTool && ALL[10] == MigrateProd && ALL[11] == HighRiskOther;
  }

  /** The names of a set of categories, in the fixed order. */
  function Ordered(cats: set<Category>, of: seq<Category>): (r: seq<FileValue>)
    ensures forall j :: j in r <==> exists c :: c in of && c in cats && j == JStr(Name(c))
  {
    if of == [] then []
    else
      var rest := Ordered(cats, of[1..]);
      assert of == [of[0]] + of[1..];
      if of[0] in cats then [JStr(Name(of[0]))] + rest else rest
  }

  function WriteCategories(cats: set<Category>): FileValue {
    JArr(Ordered(cats, ALL))
  }

  /** The known names among the strings of an array; anything else is dropped. */
  function ReadCategories(j: Option<FileValue>): set<Category> {
    match j
    case Some(JArr(items)) => set c | c in ALL && JStr(Name(c)) in items
    case _ => {}
  }

  lemma CategoriesRoundTrip(cats: set<Category>)
    ensures ReadCategories(Some(WriteCategories(cats))) == cats
  {
    var r, items := ReadCategories(Some(WriteCategories(cats))), Ordered(cats, ALL);
    forall c ensures c in r <==> c in cats {
      AllCategories(c);
      if c in r {
        var d :| d in ALL && d in cats && JStr(Name(c)) == JStr(Name(d));
        NameDetermines(c, d);
      }
    }
  }

  // ---------------------------------------------------------------------------------------------
  // Repository labels.
  // ---------------------------------------------------------------------------------------------

  predicate IsSeparator(c: char) {
    c == '/' || c == '\\'
  }

  predicate IsControl(c: char) {
    c as int < 0x20 || c as int == 0x7F
  }

  function LastSegment(s: string): string {
    if s == "" || IsSeparator(s[|s| - 1]) then "" else LastSegment(s[..|s| - 1]) + [s[|s| - 1]]
  }

  function DropControl(s: string): string {
    if s == "" then "" else (if IsControl(s[0]) then "" else [s[0]]) + DropControl(s[1..])
  }

  const LABEL_MAX: nat := 64

  function Cut(s: string): string {
    if |s| <= LABEL_MAX then s else s[..LABEL_MAX]
  }

  function Cleaned(s: string): string {
    Cut(Trim(DropControl(LastSegment(s))))
  }

  /** The label normaliser: last path segment, no control characters, trimmed, at most 64 characters, or none. */
  function SanitizeLabel(s: string): Option<string> {
    if Cleaned(s) == "" then None else Some(Cleaned(s))
  }

  /** Only characters a label may hold. */
  predicate Plain(s: string) {
    forall k :: 0 <= k < |s| ==> !IsSeparator(s[k]) && !IsControl(s[k])
  }

  /** Neither end is white space. */
  predicate Trimmed(s: string) {
    s != "" ==> !IsSpace(s[0]) && !IsSpace(s[|s| - 1])
  }

  lemma {:induction false} LastSegmentPlain(s: string)
    ensures forall k :: 0 <= k < |LastSegment(s)| ==> !IsSeparator(LastSegment(s)[k])
    ensures (forall k :: 0 <= k < |s| ==> !IsSeparator(s[k])) ==> LastSegment(s) == s
  {
    if s != "" && !IsSeparator(s[|s| - 1]) {
      LastSegmentPlain(s[..|s| - 1]);
      assert s == s[..|s| - 1] + [s[|s| - 1]];
    }
  }

  lemma {:induction false} DropControlPlain(s: string)
    requires forall k :: 0 <= k < |s| ==> !IsSeparator(s[k])
    ensures Plain(DropControl(s))
    ensures Plain(s) ==> DropControl(s) == s
  {
    if s != "" {
      DropControlPlain(s[1..]);
      assert s == [s[0]] + s[1..];
    }
  }

  lemma {:induction false} TrimRightTrims(s: string)
    ensures s != "" && !IsSpace(s[0]) ==> TrimRight(s) != "" && TrimRight(s)[0] == s[0]
    ensures s == "" || !IsSpace(s[|s| - 1]) ==> TrimRight(s) == s
  {
    if s != "" && IsSpace(s[|s| - 1]) {
      TrimRightTrims(s[..|s| - 1]);
    }
  }

  lemma {:induction false} TrimLeftSuffix(s: string)
    ensures exists k :: 0 <= k <= |s| && TrimLeft(s) == s[k..]
  {
    if s != "" && IsSpace(s[0]) {
      TrimLeftSuffix(s[1..]);
      var k :| 0 <= k <= |s[1..]| && TrimLeft(s[1..]) == s[1..][k..];
      assert s[1..][k..] == s[k + 1..];
    } else {
      assert s[0..] == s;
    }
  }

  lemma TrimTrims(s: string)
    ensures Trimmed(Trim(s))
    ensures Trimmed(s) ==> Trim(s) == s
    ensures Plain(s) ==> Plain(Trim(s))
  {
    TrimIsTrimmed(s);
    if Trimmed(s) { TrimmedStays(s); }
    if Plain(s) { TrimPlain(s); }
  }

  lemma TrimIsTrimmed(s: string)
    ensures Trimmed(Trim(s))
  {
    TrimRightTrims(TrimLeft(s));
  }

  lemma TrimmedStays(s: string)
    requires Trimmed(s)
    ensures Trim(s) == s
  {
    assert TrimLeft(s) == s;
    TrimRightTrims(s);
  }

  lemma TrimPlain(s: string)
    requires Plain(s)
    ensures Plain(Trim(s))
  {
    TrimLeftSuffix(s);
    var k :| 0 <= k <= |s| && TrimLeft(s) == s[k..];
    var l, t := TrimLeft(s), Trim(s);
    assert t <= l;
    forall i | 0 <= i < |t| ensures !IsSeparator(t[i]) && !IsControl(t[i]) {
      assert t[i] == l[i] == s[k + i];
    }
  }

  /** A label that the normaliser leaves alone. */
  predicate SettledLabel(s: string) {
    s != "" && Plain(s) && Trimmed(s) && |s| <= LABEL_MAX
  }

  lemma CleanedShape(s: string)
    ensures var r := Cleaned(s);
      Plain(r) && |r| <= LABEL_MAX && (r != "" ==> !IsSpace(r[0]))
  {
    LastSegmentPlain(s);
    DropControlPlain(LastSegment(s));
    TrimTrims(DropControl(LastSegment(s)));
    CutShape(Trim(DropControl(LastSegment(s))));
  }

  lemma CutShape(s: string)
    requires Plain(s) && Trimmed(s)
    ensures Plain(Cut(s)) && |Cut(s)| <= LABEL_MAX && (Cut(s) != "" ==> !IsSpace(Cut(s)[0]))
  {
  }

  lemma SettledIffFixed(s: string)
    ensures SettledLabel(s) <==> SanitizeLabel(s) == Some(s)
  {
    CleanedShape(s);
    LastSegmentPlain(s);
    DropControlPlain(LastSegment(s));
    TrimTrims(DropControl(LastSegment(s)));
    if SanitizeLabel(s) == Some(s) { CleanedFixedTrimmed(s); }
  }

  /** A text that is its own cleaned form is trimmed. */
  lemma CleanedFixedTrimmed(s: string)
    requires Cleaned(s) == s && s != ""
    ensures Trimmed(s)
  {
    CleanedShape(s);
    LastSegmentPlain(s);
    DropControlPlain(s);
    assert DropControl(LastSegment(s)) == s;
    TrimTrims(s);
    assert |Trim(s)| <= |s| by { assert |TrimLeft(s)| <= |s|; }
    assert Cut(Trim(s)) == s;
    assert Trim(s) == s;
  }

  /** Normalising twice differs from normalising once exactly when the cut at 64 characters left white space at the end. */
  lemma SanitizeTwiceIff(s: string)
    requires SanitizeLabel(s).Some?
    ensures var once := SanitizeLabel(s).value;
      SanitizeLabel(once) == Some(once) <==> !IsSpace(once[|once| - 1])
  {
    CleanedShape(s);
    SettledIffFixed(SanitizeLabel(s).value);
  }

  /** It can: 63 letters, a space and one more letter. */
  lemma SanitizeNotIdempotent()
    ensures exists s :: SanitizeLabel(s).Some? && SanitizeLabel(SanitizeLabel(s).value) != SanitizeLabel(s)
  {
    var s := seq(65, i => if i == 63 then ' ' else 'a');
    assert Plain(s) && Trimmed(s);
    LastSegmentPlain(s);
    DropControlPlain(s);
    TrimTrims(s);
    assert Cleaned(s) == s[..64];
    SanitizeTwiceIff(s);
  }

  /** Twice is always enough. */
  lemma SanitizeSettles(s: string)
    requires SanitizeLabel(s).Some?
    ensures var once := SanitizeLabel(s).value;
      SanitizeLabel(once).Some? && SettledLabel(SanitizeLabel(once).value)
  {
    var once := Cleaned(s);
    CleanedShape(s);
    LastSegmentPlain(once);
    DropControlPlain(once);
    TrimTrims(once);
    TrimRightTrims(once);
    assert TrimLeft(once) == once;
  }

  // ---------------------------------------------------------------------------------------------
  // The file.
  // ---------------------------------------------------------------------------------------------

  predicate ValidScope(s: string) {
    1 <= |s| <= 64 && forall k :: 0 <= k < |s| ==> IsHexChar(s[k])
  }

  function Get(fields: map<string, FileValue>, key: string): Option<FileValue> {
    if key in fields then Some(fields[key]) else None
  }

  const Preset := PolicyConfig(true, DEFAULT_GATED)

  /** A scope's settings; an empty category list means the default set only where that is the safe reading. */
  function ParseScope(fields: map<string, FileValue>, failsafe: bool): PolicyConfig {
    var cats := ReadCategories(Get(fields, "categories"));
    PolicyConfig(Get(fields, "enabled") != Some(JBool(false)), if cats == {} && failsafe then DEFAULT_GATED else cats)
  }

  predicate IsEntry(j: FileValue) {
    j.JObj? && "categories" in j.fields && j.fields["categories"].JArr?
  }

  function ParseEntry(j: FileValue): RepoEntry
    requires IsEntry(j)
  {
    RepoEntry(
      ParseScope(j.fields, false),
      match Get(j.fields, "label") {
        case Some(JStr(l)) => SanitizeLabel(l)
        case _ => None
      })
  }

  function ParseRepos(j: Option<FileValue>): map<string, RepoEntry> {
    match j
    case Some(JObj(fields)) => map scope | scope in fields && ValidScope(scope) && IsEntry(fields[scope]) :: ParseEntry(fields[scope])
    case _ => map[]
  }

  /** The loop that fills the override map, one entry of the file at a time. */
  method ParseReposLoop(fields: map<string, FileValue>) returns (repos: map<string, RepoEntry>)
    ensures repos == ParseRepos(Some(JObj(fields)))
  {
    repos := map[];
    var left := fields.Keys;
    while left != {}
      invariant left <= fields.Keys
      invariant repos == map scope | scope in fields && scope !in left && ValidScope(scope) && IsEntry(fields[scope]) :: ParseEntry(fields[scope])
      decreases left
    {
      var scope :| scope in left;
      left := left - {scope};
      if ValidScope(scope) && IsEntry(fields[scope]) {
        repos := repos[scope := ParseEntry(fields[scope])];
      }
    }
  }

  predicate IsObject(j: Option<FileValue>) {
    j.Some? && j.value.JObj?
  }

  /** Reading the file: absent or broken, with layers, or in the older flat form. */
  function Load(file: Option<FileValue>): Layered {
    if !IsObject(file) then Layered(Preset, map[])
    else
      var fields := file.value.fields;
      if IsObject(Get(fields, "default")) || IsObject(Get(fields, "repos")) then
        Layered(
          if IsObject(Get(fields, "default")) then ParseScope(fields["default"].fields, true) else Preset,
          ParseRepos(Get(fields, "repos")))
      else Layered(ParseScope(fields, true), map[])
  }

  function ScopeValue(c: PolicyConfig): map<string, FileValue> {
    map["enabled" := JBool(c.enabled), "categories" := WriteCategories(c.categories)]
  }

  function EntryValue(e: RepoEntry): FileValue {
    JObj(ScopeValue(e.config) + if e.tag.Some? then map["label" := JStr(e.tag.value)] else map[])
  }

  function ReposValue(repos: map<string, RepoEntry>): FileValue {
    JObj(map scope | scope in repos :: EntryValue(repos[scope]))
  }

  function Save(p: Layered): Option<FileValue> {
    Some(JObj(map["version" := JNum(2), "default" := JObj(ScopeValue(p.fallback)), "repos" := ReposValue(p.repos)]))
  }

  // ---------------------------------------------------------------------------------------------
  // Load after save.
  // ---------------------------------------------------------------------------------------------

  function NormalTag(tag: Option<string>): Option<string> {
    if tag.Some? then SanitizeLabel(tag.value) else None
  }

  function NormalEntry(e: RepoEntry): RepoEntry {
    RepoEntry(e.config, NormalTag(e.tag))
  }

  function NormalDefault(c: PolicyConfig): PolicyConfig {
    if c.categories == {} then c.(categories := DEFAULT_GATED) else c
  }

  function Normalise(p: Layered): Layered {
    Layered(NormalDefault(p.fallback), map scope | scope in p.repos && ValidScope(scope) :: NormalEntry(p.repos[scope]))
  }

  predicate SettledTag(tag: Option<string>) {
    tag.Some? ==> SettledLabel(tag.value)
  }

  /** The default gates something, every scope is a hash, every label is settled. */
  predicate Normal(p: Layered) {
    && p.fallback.categories != {}
    && forall scope :: scope in p.repos ==> ValidScope(scope) && SettledTag(p.repos[scope].tag)
  }

  lemma KeysDiffer()
    ensures "enabled" != "categories" && "label" != "enabled" && "label" != "categories"
    ensures "version" != "default" && "version" != "repos" && "default" != "repos"
  {
    assert |"enabled"| == 7 && |"categories"| == 10 && |"label"| == 5 && |"repos"| == 5;
    assert "version"[0] == 'v' && "default"[0] == 'd' && |"version"| == 7 && |"default"| == 7;
  }

  lemma ScopeRoundTrip(c: PolicyConfig, more: map<string, FileValue>, failsafe: bool)
    requires "enabled" !in more && "categories" !in more
    ensures ParseScope(ScopeValue(c) + more, failsafe) == if failsafe then NormalDefault(c) else c
  {
    KeysDiffer();
    CategoriesRoundTrip(c.categories);
    var fields := ScopeValue(c) + more;
    assert fields["enabled"] == JBool(c.enabled) && fields["categories"] == WriteCategories(c.categories);
  }

  lemma EntryRoundTrip(e: RepoEntry)
    ensures IsEntry(EntryValue(e)) && ParseEntry(EntryValue(e)) == NormalEntry(e)
  {
    KeysDiffer();
    var more: map<string, FileValue> := if e.tag.Some? then map["label" := JStr(e.tag.value)] else map[];
    ScopeRoundTrip(e.config, more, false);
    var fields := ScopeValue(e.config) + more;
    assert EntryValue(e) == JObj(fields);
    assert "categories" in fields && fields["categories"] == WriteCategories(e.config.categories);
    assert e.tag.Some? ==> fields["label"] == JStr(e.tag.value);
  }

  lemma ReposRoundTrip(repos: map<string, RepoEntry>)
    ensures ParseRepos(Some(ReposValue(repos))) == map scope | scope in repos && ValidScope(scope) :: NormalEntry(repos[scope])
  {
    var read := ParseRepos(Some(ReposValue(repos)));
    forall scope
      ensures scope in read <==> scope in repos && ValidScope(scope)
      ensures scope in read ==> read[scope] == NormalEntry(repos[scope])
    {
      RepoRoundTrip(repos, scope);
    }
  }

  lemma RepoRoundTrip(repos: map<string, RepoEntry>, scope: string)
    ensures var read := ParseRepos(Some(ReposValue(repos)));
      && (scope in read <==> scope in repos && ValidScope(scope))
      && (scope in read ==> read[scope] == NormalEntry(repos[scope]))
  {
    if scope in repos {
      EntryRoundTrip(repos[scope]);
      assert ReposValue(repos).fields[scope] == EntryValue(repos[scope]);
    }
  }

  /** What is read back after a save is the policy, normalised. */
  lemma LoadSave(p: Layered)
    ensures Load(Save(p)) == Normalise(p)
  {
    KeysDiffer();
    var fields := Save(p).value.fields;
    assert fields["default"] == JObj(ScopeValue(p.fallback)) && fields["repos"] == ReposValue(p.repos);
    ScopeRoundTrip(p.fallback, map[], true);
    assert ScopeValue(p.fallback) + map[] == ScopeValue(p.fallback);
    ReposRoundTrip(p.repos);
  }

  lemma NormaliseFixedIff(p: Layered)
    ensures Normalise(p) == p <==> Normal(p)
  {
    var n := Normalise(p);
    forall scope | scope in p.repos
      ensures NormalEntry(p.repos[scope]) == p.repos[scope] <==> SettledTag(p.repos[scope].tag)
    {
      if p.repos[scope].tag.Some? { SettledIffFixed(p.repos[scope].tag.value); }
    }
    if Normal(p) {
      assert n.repos == p.repos;
    } else if n == p {
      forall scope | scope in p.repos ensures ValidScope(scope) && SettledTag(p.repos[scope].tag) {
        assert scope in n.repos && n.repos[scope] == NormalEntry(p.repos[scope]);
      }
    }
  }

  /** Load after save is the identity exactly on normal policies. */
  lemma LoadSaveIdentityIff(p: Layered)
    ensures Load(Save(p)) == p <==> Normal(p)
  {
    LoadSave(p);
    NormaliseFixedIff(p);
  }

  // ---------------------------------------------------------------------------------------------
  // Deltas.
  // ---------------------------------------------------------------------------------------------

  function Set(p: Layered, d: Delta): Layered {
    match d
    case SetDefault(c) => p.(fallback := c)
    case SetRepo(scope, e) => p.(repos := p.repos[scope := e])
    case RemoveRepo(scope) => p.(repos := p.repos - {scope})
  }

  /** One locked read-modify-write of the file. */
  function ApplyDelta(file: Option<FileValue>, d: Delta): Option<FileValue> {
    Save(Set(Load(file), d))
  }

  function ApplyAll(file: Option<FileValue>, ds: seq<Delta>): Option<FileValue> {
    if ds == [] then file else ApplyDelta(ApplyAll(file, ds[..|ds| - 1]), ds[|ds| - 1])
  }

  predicate Concerns(d: Delta, scope: string) {
    !d.SetDefault? && d.scope == scope
  }

  /** What was loaded gates something by default and has only hashes as scopes. */
  lemma LoadedShape(file: Option<FileValue>)
    ensures Load(file).fallback.categories != {}
    ensures forall scope :: scope in Load(file).repos ==> ValidScope(scope)
  {
    assert RecursiveRm in DEFAULT_GATED;
  }

  /**
   A delta leaves the default and every other repository's settings as they were; another repository's
   whole entry is unchanged exactly when it has no label or a settled one.
   */
  lemma DeltaTouchesOnlyItsKey(file: Option<FileValue>, d: Delta, scope: string)
    requires !Concerns(d, scope)
    ensures var was, now := Load(file), Load(ApplyDelta(file, d));
      && (!d.SetDefault? ==> now.fallback == was.fallback)
      && (scope in now.repos <==> scope in was.repos)
      && (scope in was.repos ==>
            && now.repos[scope].config == was.repos[scope].config
            && (now.repos[scope] == was.repos[scope] <==> SettledTag(was.repos[scope].tag)))
  {
    var was := Load(file);
    LoadSave(Set(was, d));
    LoadedShape(file);
    if scope in was.repos && was.repos[scope].tag.Some? { SettledIffFixed(was.repos[scope].tag.value); }
  }

  /** What is loaded for another repository after a delta: its settings, its label normalised once more. */
  lemma DeltaRenormalises(file: Option<FileValue>, d: Delta, scope: string)
    requires !Concerns(d, scope)
    ensures var was, now := Load(file), Load(ApplyDelta(file, d));
      && (scope in now.repos <==> scope in was.repos)
      && (scope in was.repos ==> now.repos[scope] == NormalEntry(was.repos[scope]))
  {
    var was := Load(file);
    LoadSave(Set(was, d));
    LoadedShape(file);
    SetKeepsOthers(was, d, scope);
  }

  lemma SetKeepsOthers(p: Layered, d: Delta, scope: string)
    requires !Concerns(d, scope)
    ensures (scope in Set(p, d).repos <==> scope in p.repos) && (scope in p.repos ==> Set(p, d).repos[scope] == p.repos[scope])
  {
  }

  /** A failing input: a file with a long label, and the removal of an override it does not even have. */
  lemma UnrelatedDeltaChangesLabel()
    ensures exists file, d, scope ::
              && !Concerns(d, scope) && scope in Load(file).repos && scope in Load(ApplyDelta(file, d)).repos
              && Load(ApplyDelta(file, d)).repos[scope] != Load(file).repos[scope]
  {
    SanitizeNotIdempotent();
    var long :| SanitizeLabel(long).Some? && SanitizeLabel(SanitizeLabel(long).value) != SanitizeLabel(long);
    var file, d := LongLabelFile(long), RemoveRepo("b");
    LongLabelChanges(long);
    assert !Concerns(d, "a") && "a" in Load(file).repos && "a" in Load(ApplyDelta(file, d)).repos
           && Load(ApplyDelta(file, d)).repos["a"] != Load(file).repos["a"];
  }

  function LongLabelFile(long: string): Option<FileValue> {
    Save(Layered(Preset, map["a" := RepoEntry(Preset, Some(long))]))
  }

  lemma LongLabelChanges(long: string)
    requires SanitizeLabel(long).Some? && SanitizeLabel(SanitizeLabel(long).value) != SanitizeLabel(long)
    ensures var file := LongLabelFile(long);
      var was, now := Load(file).repos, Load(ApplyDelta(file, RemoveRepo("b"))).repos;
      "b" != "a" && "a" in was && "a" in now && now["a"] != was["a"]
  {
    var p := Layered(Preset, map["a" := RepoEntry(Preset, Some(long))]);
    assert ValidScope("a") && "b"[0] != "a"[0];
    LoadSave(p);
    assert Load(LongLabelFile(long)).repos["a"] == NormalEntry(p.repos["a"]);
    DeltaRenormalises(LongLabelFile(long), RemoveRepo("b"), "a");
  }

  /** What a delta sets is what is loaded afterwards, normalised. */
  lemma DeltaSetsItsKey(file: Option<FileValue>, d: Delta)
    ensures var now := Load(ApplyDelta(file, d));
      match d {
        case SetDefault(c) => now.fallback == NormalDefault(c)
        case SetRepo(scope, e) => (scope in now.repos <==> ValidScope(scope)) && (ValidScope(scope) ==> now.repos[scope] == NormalEntry(e))
        case RemoveRepo(scope) => scope !in now.repos
      }
  {
    LoadSave(Set(Load(file), d));
  }

  datatype Word = Untouched | Written(entry: RepoEntry, at: nat) | Removed

  /** The last word on a repository, whoever wrote it. */
  function LastWord(ds: seq<Delta>, scope: string): (w: Word)
    ensures w.Written? ==> w.at < |ds|
  {
    if ds == [] then Untouched
    else
      match ds[|ds| - 1]
      case SetRepo(s, e) => if s == scope then Written(e, |ds| - 1) else LastWord(ds[..|ds| - 1], scope)
      case RemoveRepo(s) => if s == scope then Removed else LastWord(ds[..|ds| - 1], scope)
      case SetDefault(_) => LastWord(ds[..|ds| - 1], scope)
  }

  function LastDefault(ds: seq<Delta>): Option<PolicyConfig> {
    if ds == [] then None
    else if ds[|ds| - 1].SetDefault? then Some(ds[|ds| - 1].config)
    else LastDefault(ds[..|ds| - 1])
  }

  /** After any interleaving of locked writes, the default is the last one written, or the initial one. */
  lemma {:induction false} LastDefaultWins(file: Option<FileValue>, ds: seq<Delta>)
    ensures Load(ApplyAll(file, ds)).fallback ==
            match LastDefault(ds) { case None => Load(file).fallback case Some(c) => NormalDefault(c) }
  {
    if ds != [] {
      var n := |ds| - 1;
      LastDefaultWins(file, ds[..n]);
      LoadedShape(ApplyAll(file, ds[..n]));
      LoadSave(Set(Load(ApplyAll(file, ds[..n])), ds[n]));
    }
  }

  /** Normalising a third time changes nothing. */
  lemma TagSettles(tag: Option<string>)
    ensures NormalTag(NormalTag(NormalTag(tag))) == NormalTag(NormalTag(tag))
  {
    if tag.Some? && SanitizeLabel(tag.value).Some? {
      SanitizeSettles(tag.value);
      SettledIffFixed(SanitizeLabel(SanitizeLabel(tag.value).value).value);
    }
  }

  /** A loaded label was normalised once, when it was read. */
  lemma LoadedTag(file: Option<FileValue>, scope: string)
    requires scope in Load(file).repos
    ensures exists raw :: Load(file).repos[scope].tag == NormalTag(raw)
  {
    var j := file.value.fields["repos"].fields[scope];
    assert Load(file).repos[scope] == ParseEntry(j);
    match Get(j.fields, "label")
    case Some(JStr(l)) => assert ParseEntry(j).tag == NormalTag(Some(l));
    case _ => assert ParseEntry(j).tag == NormalTag(None);
  }

  lemma LoadedTagSettles(file: Option<FileValue>, scope: string)
    requires scope in Load(file).repos
    ensures NormalTag(NormalTag(Load(file).repos[scope].tag)) == NormalTag(Load(file).repos[scope].tag)
  {
    LoadedTag(file, scope);
    var raw :| Load(file).repos[scope].tag == NormalTag(raw);
    TagSettles(raw);
  }

  /** What the last word on a repository, and the deltas after it, make of its entry. */
  function EntryAfter(was: map<string, RepoEntry>, ds: seq<Delta>, scope: string): Option<RepoEntry> {
    match LastWord(ds, scope)
    case Untouched =>
      if scope !in was then None else Some(if ds == [] then was[scope] else NormalEntry(was[scope]))
    case Written(e, at) => Some(if at == |ds| - 1 then NormalEntry(e) else NormalEntry(NormalEntry(e)))
    case Removed => None
  }

  /** The repository's entry is this one, or absent. */
  predicate Holds(repos: map<string, RepoEntry>, scope: string, e: Option<RepoEntry>) {
    (scope in repos <==> e.Some?) && (scope in repos ==> repos[scope] == e.value)
  }

  function NormalAgain(e: Option<RepoEntry>): Option<RepoEntry> {
    if e.Some? then Some(NormalEntry(e.value)) else None
  }

  /** A delta on another key normalises the predicted entry once more. */
  lemma EntryAfterOther(file: Option<FileValue>, ds: seq<Delta>, scope: string)
    requires ds != [] && !Concerns(ds[|ds| - 1], scope)
    ensures EntryAfter(Load(file).repos, ds, scope) == NormalAgain(EntryAfter(Load(file).repos, ds[..|ds| - 1], scope))
  {
    var was, w := Load(file).repos, LastWord(ds[..|ds| - 1], scope);
    assert LastWord(ds, scope) == w;
    if w.Written? {
      TagSettles(w.entry.tag);
    } else if w.Untouched? && scope in was {
      LoadedTagSettles(file, scope);
    }
  }

  lemma EntryAfterOwn(was: map<string, RepoEntry>, ds: seq<Delta>, scope: string)
    requires ds != [] && Concerns(ds[|ds| - 1], scope)
    ensures EntryAfter(was, ds, scope) == if ds[|ds| - 1].SetRepo? then Some(NormalEntry(ds[|ds| - 1].entry)) else None
  {
  }

  /**
   After any interleaving of locked writes, whatever the writers held in memory, a repository's entry is
   that of the last write to it (or the initial one): its settings exactly, and its label normalised once
   by the write, and once more, for good, by any later delta.
   */
  lemma {:induction false} LastWriteWins(file: Option<FileValue>, ds: seq<Delta>, scope: string)
    requires ValidScope(scope)
    ensures Holds(Load(ApplyAll(file, ds)).repos, scope, EntryAfter(Load(file).repos, ds, scope))
  {
    if ds != [] {
      var n := |ds| - 1;
      LastWriteWins(file, ds[..n], scope);
      if Concerns(ds[n], scope) {
        EntryAfterOwn(Load(file).repos, ds, scope);
        DeltaSetsItsKey(ApplyAll(file, ds[..n]), ds[n]);
      } else {
        EntryAfterOther(file, ds, scope);
        DeltaRenormalises(ApplyAll(file, ds[..n]), ds[n], scope);
      }
    }
  }

  // ---------------------------------------------------------------------------------------------
  // Daemons in lockstep.
  // ---------------------------------------------------------------------------------------------

  /** A change as the operator asks for it: only the fields given change. */
  datatype Mutation =
    | ChangeDefault(enabled: Option<bool>, categories: Option<set<Category>>)
    | ChangeRepo(scope: string, enabled: Option<bool>, categories: Option<set<Category>>, tag: Option<string>)
    | Unset(scope: string)

  function Or<T>(o: Option<T>, otherwise: T): T {
    if o.Some? then o.value else otherwise
  }

  /** The one-key change a daemon works out from its own memory. */
  function DeltaOf(m: Layered, u: Mutation): Delta {
    match u
    case ChangeDefault(enabled, cats) =>
      SetDefault(NormalDefault(PolicyConfig(Or(enabled, m.fallback.enabled), Or(cats, m.fallback.categories))))
    case ChangeRepo(scope, enabled, cats, tag) =>
      var base := if scope in m.repos then m.repos[scope] else RepoEntry(PolicyConfig(true, {}), None);
      SetRepo(scope, RepoEntry(PolicyConfig(Or(enabled, base.config.enabled), Or(cats, base.config.categories)),
                               if tag.Some? then tag else base.tag))
    case Unset(scope) => RemoveRepo(scope)
  }

  function Mutate(m: Layered, u: Mutation): Layered {
    Set(m, DeltaOf(m, u))
  }

  /** A field after a change: the one given, or else the old one, or else the one things start with. */
  predicate FieldIs<T(==)>(given: Option<T>, was: Option<T>, first: T, now: T) {
    && (given.Some? ==> now == given.value)
    && (given.None? && was.Some? ==> now == was.value)
    && (given.None? && was.None? ==> now == first)
  }

  predicate ScopeUntouched(before: map<string, RepoEntry>, after: map<string, RepoEntry>, scope: string) {
    (scope in before <==> scope in after) && (scope in before ==> after[scope] == before[scope])
  }

  /** What a change does to the default and the overrides, field by field, and the one-key change it hands on. */
  ghost predicate ChangeDone(
    default0: Option<PolicyConfig>, repos0: map<string, RepoEntry>, u: Mutation,
    default1: Option<PolicyConfig>, repos1: map<string, RepoEntry>, d: Delta)
  {
    match u
    case ChangeDefault(enabled, categories) =>
      && repos1 == repos0 && default1.Some? && d == SetDefault(default1.value)
      && FieldIs(enabled, if default0.Some? then Some(default0.value.enabled) else None, true, default1.value.enabled)
      && var was := if default0.Some? then Some(default0.value.categories) else None;
         if FieldIs(categories, was, {}, {}) then default1.value.categories == DEFAULT_GATED
         else FieldIs(categories, was, {}, default1.value.categories)
    case ChangeRepo(scope, enabled, categories, tag) =>
      && default1 == default0 && scope in repos1 && d == SetRepo(scope, repos1[scope])
      && (forall other :: other != scope ==> ScopeUntouched(repos0, repos1, other))
      && var was, now := if scope in repos0 then Some(repos0[scope]) else None, repos1[scope];
         && FieldIs(enabled, if was.Some? then Some(was.value.config.enabled) else None, true, now.config.enabled)
         && FieldIs(categories, if was.Some? then Some(was.value.config.categories) else None, {}, now.config.categories)
         && (tag.Some? ==> now.tag == tag)
         && (tag.None? ==> now.tag == if was.Some? then was.value.tag else None)
    case Unset(scope) =>
      && default1 == default0 && scope !in repos1 && d == RemoveRepo(scope)
      && (forall other :: other != scope ==> ScopeUntouched(repos0, repos1, other))
  }

  /** A daemon's memory changes as asked, field by field, and it hands on exactly the new value of the one key. */
  lemma MutateExact(m: Layered, u: Mutation)
    ensures var n := Mutate(m, u);
      ChangeDone(Some(m.fallback), m.repos, u, Some(n.fallback), n.repos, DeltaOf(m, u))
  {
  }

  /** A change done field by field is the mutation; a default that is not there yet behaves like one that gates nothing. */
  lemma ChangeIsMutation(
    default0: Option<PolicyConfig>, repos0: map<string, RepoEntry>, u: Mutation,
    default1: Option<PolicyConfig>, repos1: map<string, RepoEntry>, d: Delta)
    requires ChangeDone(default0, repos0, u, default1, repos1, d)
    ensures var m := Layered(if default0.Some? then default0.value else PolicyConfig(true, {}), repos0);
      && d == DeltaOf(m, u)
      && Layered(if default1.Some? then default1.value else PolicyConfig(true, {}), repos1) == Mutate(m, u)
  {
    var m := Layered(if default0.Some? then default0.value else PolicyConfig(true, {}), repos0);
    match u
    case ChangeDefault(_, _) =>
    case ChangeRepo(scope, _, _, _) =>
      assert d == DeltaOf(m, u);
      SameButOne(repos0, repos1, scope);
      assert repos1 == repos0[scope := repos1[scope]];
    case Unset(scope) =>
      SameButOne(repos0, repos1, scope);
      assert repos1 == repos0 - {scope};
  }

  lemma SameButOne(repos0: map<string, RepoEntry>, repos1: map<string, RepoEntry>, scope: string)
    requires forall other :: other != scope ==> ScopeUntouched(repos0, repos1, other)
    ensures forall other :: other != scope ==> (other in repos1 <==> other in repos0)
    ensures forall other :: other != scope && other in repos0 ==> other in repos1 && repos1[other] == repos0[other]
  {
    forall other | other != scope ensures other in repos1 <==> other in repos0 { assert ScopeUntouched(repos0, repos1, other); }
    forall other | other != scope && other in repos0 ensures other in repos1 && repos1[other] == repos0[other] {
      assert ScopeUntouched(repos0, repos1, other);
    }
  }

  /** Scopes are hashes and labels settled. */
  predicate NormalMutation(u: Mutation) {
    match u
    case ChangeDefault(_, _) => true
    case ChangeRepo(scope, _, _, tag) => ValidScope(scope) && SettledTag(tag)
    case Unset(_) => true
  }

  /** A normal policy stays normal exactly under normal changes. */
  lemma MutateNormalIff(m: Layered, u: Mutation)
    requires Normal(m)
    ensures Normal(Mutate(m, u)) <==> NormalMutation(u)
  {
    assert RecursiveRm in DEFAULT_GATED;
    var n := Mutate(m, u);
    if u.ChangeRepo? {
      assert u.scope in n.repos && n.repos[u.scope].tag == DeltaOf(m, u).entry.tag;
      assert forall scope :: scope in n.repos && scope != u.scope ==> scope in m.repos && n.repos[scope] == m.repos[scope];
    }
  }

  /** The owner writes the file, every daemon changes its memory. */
  datatype World = World(memories: seq<Layered>, file: Option<FileValue>)

  datatype Turn = Turn(owner: nat, mutation: Mutation)

  function Take(w: World, t: Turn): World
    requires t.owner < |w.memories|
  {
    World(seq(|w.memories|, i requires 0 <= i < |w.memories| => Mutate(w.memories[i], t.mutation)),
          ApplyDelta(w.file, DeltaOf(w.memories[t.owner], t.mutation)))
  }

  /** Every daemon holds what the file loads as. */
  predicate Agree(w: World) {
    forall i :: 0 <= i < |w.memories| ==> w.memories[i] == Load(w.file)
  }

  /** A daemon that agrees with the file still agrees after its write exactly if what it then holds is normal. */
  lemma WrittenIsMutatedIff(m: Layered, file: Option<FileValue>, u: Mutation)
    requires m == Load(file)
    ensures Load(ApplyDelta(file, DeltaOf(m, u))) == Mutate(m, u) <==> Normal(Mutate(m, u))
  {
    LoadSaveIdentityIff(Mutate(m, u));
  }

  /** From a normal policy: exactly if the change is normal, its scope a hash and its label settled. */
  lemma WrittenIsMutatedIffNormal(m: Layered, file: Option<FileValue>, u: Mutation)
    requires m == Load(file) && Normal(m)
    ensures Load(ApplyDelta(file, DeltaOf(m, u))) == Mutate(m, u) <==> NormalMutation(u)
  {
    WrittenIsMutatedIff(m, file, u);
    MutateNormalIff(m, u);
  }

  /** One turn keeps all daemons and the file in agreement exactly if the changed policy is normal. */
  lemma TurnAgreesIff(w: World, t: Turn)
    requires Agree(w) && t.owner < |w.memories|
    ensures Agree(Take(w, t)) <==> Normal(Mutate(Load(w.file), t.mutation))
    ensures Agree(Take(w, t)) ==> Load(Take(w, t).file) == Mutate(Load(w.file), t.mutation)
  {
    var w', m := Take(w, t), Load(w.file);
    assert w.memories[t.owner] == m;
    WrittenIsMutatedIff(m, w.file, t.mutation);
    forall i | 0 <= i < |w'.memories| ensures w'.memories[i] == Mutate(m, t.mutation) {
      assert w.memories[i] == m;
    }
    assert w'.memories[t.owner] == Mutate(m, t.mutation);
  }

  predicate ValidTurns(w: World, ts: seq<Turn>) {
    forall k :: 0 <= k < |ts| ==> ts[k].owner < |w.memories|
  }

  /** All agree now and after every turn. */
  predicate AgreeThroughout(w: World, ts: seq<Turn>)
    requires ValidTurns(w, ts)
    decreases |ts|
  {
    Agree(w) && (ts != [] ==> AgreeThroughout(Take(w, ts[0]), ts[1..]))
  }

  /**
   Daemons that start from a file that loads as a normal policy and see every change in the same order
   all stay equal to what the file loads as, after every turn, if and only if every change has a hash as
   its scope and a settled label.
   */
  lemma {:induction false} LockstepIff(w: World, ts: seq<Turn>)
    requires Agree(w) && Normal(Load(w.file)) && ValidTurns(w, ts)
    ensures AgreeThroughout(w, ts) <==> forall k :: 0 <= k < |ts| ==> NormalMutation(ts[k].mutation)
    decreases |ts|
  {
    if ts != [] {
      var w', later := Take(w, ts[0]), ts[1..];
      TurnAgreesIff(w, ts[0]);
      MutateNormalIff(Load(w.file), ts[0].mutation);
      if NormalMutation(ts[0].mutation) {
        LockstepIff(w', later);
        assert forall k :: 0 <= k < |later| ==> later[k] == ts[k + 1];
        assert forall k :: 1 <= k < |ts| ==> ts[k] == later[k - 1];
      } else {
        assert !Agree(w');
      }
    }
  }

  /** A change as it reaches a daemon through the backend: the label normalised by the backend and again by the daemon. */
  function Relayed(u: Mutation): Mutation {
    if u.ChangeRepo? then u.(tag := NormalTag(NormalTag(u.tag))) else u
  }

  /** The backend and the daemon both reject a scope that is not a hash. */
  predicate Relayable(u: Mutation) {
    u.ChangeRepo? ==> ValidScope(u.scope)
  }

  lemma RelayedIsNormal(u: Mutation)
    requires Relayable(u)
    ensures NormalMutation(Relayed(u))
  {
    if u.ChangeRepo? && u.tag.Some? && SanitizeLabel(u.tag.value).Some? { SanitizeSettles(u.tag.value); }
  }

  /** Changes that come through the backend always keep the daemons and the file in agreement, whatever labels were sent. */
  lemma RelayedStaysInLockstep(w: World, us: seq<Turn>)
    requires Agree(w) && Normal(Load(w.file)) && ValidTurns(w, us)
    requires forall k :: 0 <= k < |us| ==> Relayable(us[k].mutation)
    ensures var ts := seq(|us|, k requires 0 <= k < |us| => us[k].(mutation := Relayed(us[k].mutation)));
      ValidTurns(w, ts) && AgreeThroughout(w, ts)
  {
    var ts := seq(|us|, k requires 0 <= k < |us| => us[k].(mutation := Relayed(us[k].mutation)));
    forall k | 0 <= k < |ts| ensures NormalMutation(ts[k].mutation) && ts[k].owner < |w.memories| {
      RelayedIsNormal(us[k].mutation);
    }
    LockstepIff(w, ts);
  }
}
