/**
 What a policy file and a repository label mean, said without the reader's and the normaliser's steps.

 Main results: `LoadReads` (what every shape of file says about the default and about each repository)
 and the four label laws, which reduce any label to one that is only cut: `PathIsIgnored`,
 `ControlIsIgnored`, `OuterSpaceIsIgnored` and `PlainIsCut`.
 */
module PolicyMeaning {
  import opened Options
  import opened Text
  import opened Policies
  import opened PolicyStore

  // ---------------------------------------------------------------------------------------------
  // Labels.
  // ---------------------------------------------------------------------------------------------

  lemma {:induction false} SegmentAfter(dir: string, sep: char, rest: string)
    requires sep == '/' || sep == '\\'
    ensures LastSegment(dir + [sep] + rest) == LastSegment(rest)
  {
    var s := dir + [sep] + rest;
    if rest != "" && !IsSeparator(rest[|rest| - 1]) {
      assert s[..|s| - 1] == dir + [sep] + rest[..|rest| - 1];
      SegmentAfter(dir, sep, rest[..|rest| - 1]);
    }
  }

  /** Only what follows the last slash or backslash counts. */
  lemma {:induction false} PathIsIgnored(dir: string, sep: char, rest: string)
    requires sep == '/' || sep == '\\'
    ensures SanitizeLabel(dir + [sep] + rest) == SanitizeLabel(rest)
  {
    SegmentAfter(dir, sep, rest);
  }

  lemma {:induction false} DropConcat(a: string, b: string)
    ensures DropControl(a + b) == DropControl(a) + DropControl(b)
  {
    if a == "" {
      assert a + b == b;
    } else {
      assert (a + b)[1..] == a[1..] + b;
      DropConcat(a[1..], b);
    }
  }

  /** Where the last segment of a text starts. */
  lemma {:induction false} SegmentStart(s: string) returns (k: nat)
    ensures k <= |s| && LastSegment(s) == s[k..]
    ensures k == 0 || IsSeparator(s[k - 1])
    ensures forall i :: k <= i < |s| ==> !IsSeparator(s[i])
  {
    if s == "" || IsSeparator(s[|s| - 1]) {
      k := |s|;
    } else {
      k := SegmentStart(s[..|s| - 1]);
      assert s[k..] == s[..|s| - 1][k..] + [s[|s| - 1]];
    }
  }

  lemma {:induction false} SegmentIs(pre: string, seg: string)
    requires pre == "" || IsSeparator(pre[|pre| - 1])
    requires forall i :: 0 <= i < |seg| ==> !IsSeparator(seg[i])
    ensures LastSegment(pre + seg) == seg
  {
    var s := pre + seg;
    if seg == "" {
      assert s == pre;
    } else {
      assert s[..|s| - 1] == pre + seg[..|seg| - 1];
      SegmentIs(pre, seg[..|seg| - 1]);
      assert seg == seg[..|seg| - 1] + [seg[|seg| - 1]];
    }
  }

  lemma {:induction false} DropOne(seg: string, c: char, b: string)
    requires IsControl(c)
    ensures DropControl(seg + [c] + b) == DropControl(seg + b)
  {
    DropConcat(seg + [c], b);
    DropConcat(seg, [c]);
    DropConcat(seg, b);
    assert [c][1..] == "" && DropControl([c]) == "";
    assert DropControl(seg) + "" == DropControl(seg);
  }

  lemma {:induction false} SegmentWithControl(a: string, c: char, b: string)
    requires IsControl(c) && forall i :: 0 <= i < |b| ==> !IsSeparator(b[i])
    ensures DropControl(LastSegment(a + [c] + b)) == DropControl(LastSegment(a + b))
  {
    var j := SegmentStart(a);
    assert a == a[..j] + a[j..];
    TailWithControl(a[..j], a[j..], c, b);
  }

  lemma {:induction false} TailWithControl(pre: string, seg: string, c: char, b: string)
    requires pre == "" || IsSeparator(pre[|pre| - 1])
    requires (forall i :: 0 <= i < |seg| ==> !IsSeparator(seg[i])) && forall i :: 0 <= i < |b| ==> !IsSeparator(b[i])
    requires IsControl(c)
    ensures DropControl(LastSegment(pre + seg + [c] + b)) == DropControl(LastSegment(pre + seg + b))
  {
    SegmentOfTail(pre, seg, b);
    assert pre + seg + [c] + b == pre + (seg + [c] + b);
    SegmentIs(pre, seg + [c] + b);
    DropOne(seg, c, b);
  }

  lemma {:induction false} SegmentOfTail(pre: string, seg: string, b: string)
    requires pre == "" || IsSeparator(pre[|pre| - 1])
    requires (forall i :: 0 <= i < |seg| ==> !IsSeparator(seg[i])) && forall i :: 0 <= i < |b| ==> !IsSeparator(b[i])
    ensures LastSegment(pre + seg + b) == seg + b
  {
    assert pre + seg + b == pre + (seg + b);
    SegmentIs(pre, seg + b);
  }

  /** A character below space, or delete, counts for nothing, wherever it stands. */
  lemma {:induction false} ControlIsIgnored(a: string, c: char, b: string)
    requires (c as int) < 0x20 || c as int == 0x7F
    ensures SanitizeLabel(a + [c] + b) == SanitizeLabel(a + b)
  {
    var k := SegmentStart(b);
    if k > 0 {
      var front, sep, rest := b[..k - 1], b[k - 1], b[k..];
      assert b == front + [sep] + rest;
      assert a + [c] + b == (a + [c] + front) + [sep] + rest && a + b == (a + front) + [sep] + rest;
      SegmentAfter(a + [c] + front, sep, rest);
      SegmentAfter(a + front, sep, rest);
    } else {
      SegmentWithControl(a, c, b);
    }
  }

  predicate Blank(s: string) {
    forall k :: 0 <= k < |s| ==> IsSpace(s[k])
  }

  lemma {:induction false} TrimLeftBlank(w: string, s: string)
    requires Blank(w)
    ensures TrimLeft(w + s) == TrimLeft(s)
  {
    if w == "" {
      assert w + s == s;
    } else {
      assert (w + s)[1..] == w[1..] + s;
      TrimLeftBlank(w[1..], s);
    }
  }

  lemma {:induction false} TrimRightBlank(s: string, v: string)
    requires Blank(v)
    ensures TrimRight(s + v) == TrimRight(s)
  {
    if v == "" {
      assert s + v == s;
    } else {
      assert (s + v)[..|s + v| - 1] == s + v[..|v| - 1];
      TrimRightBlank(s, v[..|v| - 1]);
    }
  }

  lemma {:induction false} BlankTrims(v: string)
    requires Blank(v)
    ensures TrimLeft(v) == "" && TrimRight(v) == ""
  {
    TrimLeftBlank(v, "");
    assert v + "" == v && "" + v == v;
    TrimRightBlank("", v);
  }

  lemma {:induction false} TrimLeftThen(s: string, v: string)
    requires Blank(v)
    ensures TrimRight(TrimLeft(s + v)) == TrimRight(TrimLeft(s))
  {
    if s == "" {
      assert s + v == v;
      BlankTrims(v);
    } else if IsSpace(s[0]) {
      assert (s + v)[1..] == s[1..] + v;
      TrimLeftThen(s[1..], v);
    } else {
      TrimRightBlank(s, v);
    }
  }

  lemma {:induction false} TrimBlank(w: string, s: string, v: string)
    requires Blank(w) && Blank(v)
    ensures Trim(w + s + v) == Trim(s)
  {
    assert w + s + v == w + (s + v);
    TrimLeftBlank(w, s + v);
    TrimLeftThen(s, v);
  }

  lemma {:induction false} DropBlank(w: string)
    requires Blank(w)
    ensures Blank(DropControl(w))
  {
    if w != "" { DropBlank(w[1..]); }
  }

  lemma SpaceIsNoSeparator(w: string)
    requires Blank(w)
    ensures forall k :: 0 <= k < |w| ==> !IsSeparator(w[k])
  {
  }

  /** White space before and after a name counts for nothing. */
  lemma {:induction false} OuterSpaceIsIgnored(w: string, name: string, v: string)
    requires Blank(w) && Blank(v) && '/' !in name && '\\' !in name
    ensures SanitizeLabel(w + name + v) == SanitizeLabel(name)
  {
    SpaceIsNoSeparator(w);
    SpaceIsNoSeparator(v);
    assert "" + (w + name + v) == w + name + v && "" + name == name;
    SegmentIs("", w + name + v);
    SegmentIs("", name);
    DropConcat(w + name, v);
    DropConcat(w, name);
    DropBlank(w);
    DropBlank(v);
    TrimBlank(DropControl(w), DropControl(name), DropControl(v));
  }

  /** What is left is cut at 64 characters and otherwise kept, and nothing at all is no label. */
  lemma {:induction false} PlainIsCut(s: string)
    requires forall k :: 0 <= k < |s| ==> s[k] != '/' && s[k] != '\\' && 0x20 <= s[k] as int != 0x7F
    requires s != "" ==> !IsSpace(s[0]) && !IsSpace(s[|s| - 1])
    ensures SanitizeLabel(s) == if s == "" then None else Some(if |s| <= 64 then s else s[..64])
  {
    assert Plain(s) && Trimmed(s);
    PlainCleaned(s);
  }

  lemma {:induction false} PlainCleaned(s: string)
    requires Plain(s) && Trimmed(s)
    ensures Cleaned(s) == Cut(s)
  {
    LastSegmentPlain(s);
    DropControlPlain(s);
    TrimmedStays(s);
    assert LastSegment(s) == s && DropControl(s) == s && Trim(s) == s;
  }

  // ---------------------------------------------------------------------------------------------
  // Files.
  // ---------------------------------------------------------------------------------------------

  predicate IsObjectAt(fields: map<string, FileValue>, key: string) {
    key in fields && fields[key].JObj?
  }

  /** The category is listed by its name. */
  predicate ListsCategory(fields: map<string, FileValue>, c: Category) {
    "categories" in fields && fields["categories"].JArr? && JStr(CategoryName(c)) in fields["categories"].items
  }

  function CategoryName(c: Category): string {
    match c
    case ForkBomb => "fork-bomb"
    case DbDrop => "db-drop"
    case HighRiskOther => "high-risk-other"
    case MigrateProd => "migrate-prod"
    case ExternalTool => "external-tool"
    case SecretFileEdit => "secret-file-edit"
    case SecretEgress => "secret-egress"
    case InlineCode => "inline-code"
    case PermChange => "perm-change"
    case HistoryRewrite => "history-rewrite"
    case DiskDestroy => "disk-destroy"
    case RecursiveRm => "recursive-rm"
  }

  /** The preset gates everything but permission changes, edits of secret files, external tools and production migrations. */
  lemma PresetExact(c: Category)
    ensures c in DEFAULT_GATED <==> c !in {PermChange, SecretFileEdit, ExternalTool, MigrateProd}
  {
  }

  /** These fields say this policy: enabled unless they say false, and exactly the categories they list. */
  ghost predicate Says(fields: map<string, FileValue>, config: PolicyConfig, failsafe: bool) {
    && (config.enabled <==> !("enabled" in fields && fields["enabled"] == JBool(false)))
    && if failsafe && (forall c :: !ListsCategory(fields, c)) then config.categories == DEFAULT_GATED
       else forall c :: c in config.categories <==> ListsCategory(fields, c)
  }

  /** A repository's scope: one to sixty-four lower-case hex digits. */
  predicate IsScope(s: string) {
    1 <= |s| <= 64 && forall k :: 0 <= k < |s| ==> '0' <= s[k] <= '9' || 'a' <= s[k] <= 'f'
  }

  /** What a repository's value says: a policy without a fallback, and a label if a text is given and something of it is left. */
  ghost predicate SaysEntry(j: FileValue, e: RepoEntry) {
    && j.JObj? && Says(j.fields, e.config, false)
    && (if "label" in j.fields && j.fields["label"].JStr? then e.tag == SanitizeLabel(j.fields["label"].s) else e.tag == None)
  }

  ghost predicate SaysRepos(fields: map<string, FileValue>, repos: map<string, RepoEntry>) {
    && (forall scope :: scope in repos <==>
          scope in fields && IsScope(scope) && fields[scope].JObj? && "categories" in fields[scope].fields
          && fields[scope].fields["categories"].JArr?)
    && (forall scope :: scope in repos ==> scope in fields && SaysEntry(fields[scope], repos[scope]))
  }

  lemma ScopeSays(fields: map<string, FileValue>, failsafe: bool)
    ensures Says(fields, ParseScope(fields, failsafe), failsafe)
  {
    var cats := ReadCategories(Get(fields, "categories"));
    forall c ensures c in cats <==> ListsCategory(fields, c) {
      AllCategories(c);
      assert CategoryName(c) == Name(c);
    }
    assert cats == {} <==> forall c :: c !in cats;
  }

  lemma ReposSay(fields: map<string, FileValue>)
    ensures SaysRepos(fields, ParseRepos(Some(JObj(fields))))
  {
    var repos := ParseRepos(Some(JObj(fields)));
    forall scope | scope in repos ensures SaysEntry(fields[scope], repos[scope]) {
      ScopeSays(fields[scope].fields, false);
    }
    forall scope ensures IsScope(scope) <==> ValidScope(scope) { }
  }

  /**
   What a file says.  With an object under `default` or `repos` each is read on its own, the default as
   preset if it has none; a file of the older flat form is a default alone; anything else, and no file,
   is the preset.  A default that lists no known category falls back to the preset ones.
   */
  lemma LoadReads(file: Option<FileValue>)
    ensures var p := Load(file);
      if file.Some? && file.value.JObj? then
        var fields := file.value.fields;
        if IsObjectAt(fields, "default") || IsObjectAt(fields, "repos") then
          && (if IsObjectAt(fields, "default") then Says(fields["default"].fields, p.fallback, true)
              else p.fallback == PolicyConfig(true, DEFAULT_GATED))
          && (if IsObjectAt(fields, "repos") then SaysRepos(fields["repos"].fields, p.repos) else p.repos == map[])
        else Says(fields, p.fallback, true) && p.repos == map[]
      else p == Layered(PolicyConfig(true, DEFAULT_GATED), map[])
  {
    if file.Some? && file.value.JObj? {
      var fields := file.value.fields;
      ScopeSays(fields, true);
      if IsObjectAt(fields, "default") { ScopeSays(fields["default"].fields, true); }
      if IsObjectAt(fields, "repos") { ReposSay(fields["repos"].fields); }
    }
  }

  /** What is written: version 2, the default, and the entries with their labels. */
  lemma SaveWrites(p: Layered)
    ensures var file := Save(p);
      && file.Some? && file.value.JObj? && file.value.fields.Keys == {"version", "default", "repos"}
      && file.value.fields["version"] == JNum(2)
      && IsObjectAt(file.value.fields, "default") && Says(file.value.fields["default"].fields, p.fallback, false)
      && IsObjectAt(file.value.fields, "repos") && file.value.fields["repos"].fields.Keys == p.repos.Keys
      && forall scope :: scope in p.repos ==> WritesEntry(file.value.fields["repos"].fields[scope], p.repos[scope])
  {
    var fields := Save(p).value.fields;
    ConfigSays(p.fallback);
    forall scope | scope in p.repos ensures WritesEntry(fields["repos"].fields[scope], p.repos[scope]) {
      EntryWrites(p.repos[scope]);
    }
  }

  ghost predicate WritesEntry(j: FileValue, e: RepoEntry) {
    && j.JObj? && Says(j.fields, e.config, false)
    && (e.tag.Some? <==> "label" in j.fields) && (e.tag.Some? ==> j.fields["label"] == JStr(e.tag.value))
  }

  lemma ConfigSays(c: PolicyConfig)
    ensures Says(ScopeValue(c), c, false)
  {
    ListedCategories(c.categories, ScopeValue(c));
  }

  lemma ListedCategories(cats: set<Category>, fields: map<string, FileValue>)
    requires "categories" in fields && fields["categories"] == WriteCategories(cats)
    ensures forall c :: c in cats <==> ListsCategory(fields, c)
  {
    CategoriesRoundTrip(cats);
    forall c ensures c in cats <==> ListsCategory(fields, c) {
      AllCategories(c);
      assert CategoryName(c) == Name(c);
    }
  }

  lemma EntryWrites(e: RepoEntry)
    ensures WritesEntry(EntryValue(e), e)
  {
    var fields := EntryValue(e).fields;
    assert "label" != "enabled" && "label" != "categories" by { assert |"label"| == 5 && |"enabled"| == 7 && |"categories"| == 10; }
    ListedCategories(e.config.categories, fields);
  }
}
