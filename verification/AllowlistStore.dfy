/**
 The persistent approval allowlist: a file of (signature, repository scope) grants that expire.

 Every locked read-modify-write of the file is one atomic operation.  The main results are over every
 sequence of operations on any initial file: `GrantExact` gives, with no assumption on clocks, exactly
 which grants the file holds; `HasIffGranted` is the documented reading of it when the clock does not
 run backwards; `OneEntryPerKey` is the no-duplicates invariant.
 */
module AllowlistStore {
  import opened Options

  datatype Key = Key(signature: string, repoScope: string)

  datatype Entry = Entry(key: Key, repoLabel: Option<string>, risk: string, createdAt: int, expiresAt: int)

  datatype Op =
    | Add(key: Key, repoLabel: Option<string>, risk: string, ttl: int, now: int)
    | Revoke(signature: string, repoScope: Option<string>)
    | Clear

  /** What the reader keeps of an entry: both halves of the key must be present. */
  predicate Readable(k: Key) {
    k.signature != "" && k.repoScope != ""
  }

  function Filter(f: seq<Entry>, keep: Entry -> bool): (r: seq<Entry>)
    ensures |r| <= |f|
    ensures forall e :: e in r <==> e in f && keep(e)
  {
    if f == [] then []
    else
      var rest := Filter(f[1..], keep);
      assert f == [f[0]] + f[1..];
      if keep(f[0]) then [f[0]] + rest else rest
  }

  function ReadEntries(f: seq<Entry>): (r: seq<Entry>)
    ensures forall e :: e in r <==> e in f && Readable(e.key)
  {
    Filter(f, (e: Entry) => Readable(e.key))
  }

  function Find(f: seq<Entry>, k: Key): (r: Option<Entry>)
    ensures r.Some? ==> r.value in f && r.value.key == k
    ensures r.None? ==> forall e :: e in f ==> e.key != k
  {
    if f == [] then None
    else if f[0].key == k then Some(f[0])
    else
      assert f == [f[0]] + f[1..];
      Find(f[1..], k)
  }

  predicate Matches(k: Key, signature: string, repoScope: Option<string>) {
    k.signature == signature && (repoScope.None? || k.repoScope == repoScope.value)
  }

  predicate Has(f: seq<Entry>, k: Key, now: int) {
    exists e :: e in ReadEntries(f) && e.key == k && e.expiresAt > now
  }

  /** The entry an add writes: creation time kept from the entry it replaces, expiry slid forward. */
  function Renewed(f: seq<Entry>, k: Key, repoLabel: Option<string>, risk: string, ttl: int, now: int): Entry {
    var existing := Find(ReadEntries(f), k);
    Entry(k, repoLabel, risk, if existing.Some? then existing.value.createdAt else now, now + ttl)
  }

  function Kept(f: seq<Entry>, op: Op): (r: seq<Entry>)
    ensures forall e :: e in r <==> e in ReadEntries(f) && Keeps(op, e)
  {
    Filter(ReadEntries(f), (e: Entry) => Keeps(op, e))
  }

  predicate Keeps(op: Op, e: Entry) {
    match op
    case Add(k, _, _, _, now) => e.expiresAt > now && e.key != k
    case Revoke(s, scope) => !Matches(e.key, s, scope)
    case Clear => false
  }

  function Apply(f: seq<Entry>, op: Op): seq<Entry> {
    match op
    case Add(k, tag, risk, ttl, now) => Kept(f, op) + [Renewed(f, k, tag, risk, ttl, now)]
    case Revoke(_, _) => if |Kept(f, op)| != |ReadEntries(f)| then Kept(f, op) else f
    case Clear => []
  }

  function Run(f: seq<Entry>, ops: seq<Op>): seq<Entry> {
    if ops == [] then f else Apply(Run(f, ops[..|ops| - 1]), ops[|ops| - 1])
  }

  // ---------------------------------------------------------------------------------------------
  // What the file holds, said of the operations alone.
  // ---------------------------------------------------------------------------------------------

  /** The last operation that concerns a key: none, the add at position `at`, or a withdrawal. */
  datatype Fate = Untouched | Granted(expiry: int, at: nat) | Withdrawn

  function LastWord(ops: seq<Op>, k: Key): (r: Fate)
    ensures r.Granted? ==> r.at < |ops|
  {
    if ops == [] then Untouched
    else
      var n := |ops| - 1;
      match ops[n]
      case Add(k', _, _, ttl, now) => if k' == k then Granted(now + ttl, n) else LastWord(ops[..n], k)
      case Revoke(s, scope) =>
        if k.signature == s && (scope == None || scope == Some(k.repoScope)) then Withdrawn else LastWord(ops[..n], k)
      case Clear => Withdrawn
  }

  /** No add from position `from` on happened at or after the expiry: pruning spares it. */
  predicate NotPruned(ops: seq<Op>, from: nat, expiry: int) {
    forall i :: from <= i < |ops| && ops[i].Add? ==> expiry > ops[i].now
  }

  /** The file has an entry for the key with this expiry. */
  predicate Holds(f: seq<Entry>, k: Key, expiry: int) {
    exists e :: e in ReadEntries(f) && e.key == k && e.expiresAt == expiry
  }

  predicate ShouldHold(f: seq<Entry>, ops: seq<Op>, k: Key, expiry: int) {
    match LastWord(ops, k)
    case Untouched => Holds(f, k, expiry) && NotPruned(ops, 0, expiry)
    case Granted(x, at) => k.signature != "" && k.repoScope != "" && x == expiry && NotPruned(ops, at + 1, expiry)
    case Withdrawn => false
  }

  predicate StepHolds(f: seq<Entry>, op: Op, k: Key, expiry: int) {
    match op
    case Add(k', _, _, ttl, now) =>
      if k' == k then Readable(k) && expiry == now + ttl else Holds(f, k, expiry) && expiry > now
    case Revoke(s, scope) => !Matches(k, s, scope) && Holds(f, k, expiry)
    case Clear => false
  }

  lemma {:induction false} FilterAll(f: seq<Entry>, keep: Entry -> bool)
    requires |Filter(f, keep)| == |f|
    ensures forall e :: e in f ==> keep(e)
  {
    if f != [] {
      assert f == [f[0]] + f[1..];
      FilterAll(f[1..], keep);
    }
  }

  lemma StepExact(f: seq<Entry>, op: Op, k: Key, expiry: int)
    ensures Holds(Apply(f, op), k, expiry) <==> StepHolds(f, op, k, expiry)
  {
    if op.Add? {
      var e := Renewed(f, op.key, op.repoLabel, op.risk, op.ttl, op.now);
      assert e in Apply(f, op);
    } else if op.Revoke? && |Kept(f, op)| == |ReadEntries(f)| {
      FilterAll(ReadEntries(f), (e: Entry) => Keeps(op, e));
    }
  }

  /** How the prediction itself moves with one more operation. */
  lemma ShouldHoldStep(f: seq<Entry>, ops: seq<Op>, k: Key, expiry: int)
    requires ops != []
    ensures var n := |ops| - 1;
      ShouldHold(f, ops, k, expiry) <==>
      match ops[n] {
        case Add(k', _, _, ttl, now) =>
          if k' == k then Readable(k) && expiry == now + ttl else ShouldHold(f, ops[..n], k, expiry) && expiry > now
        case Revoke(s, scope) => !Matches(k, s, scope) && ShouldHold(f, ops[..n], k, expiry)
        case Clear => false
      }
  {
    var n := |ops| - 1;
    forall from: nat | from <= n
      ensures NotPruned(ops, from, expiry) <==> (NotPruned(ops[..n], from, expiry) && (ops[n].Add? ==> expiry > ops[n].now))
    {
      assert NotPruned(ops, from, expiry) ==> NotPruned(ops[..n], from, expiry) by {
        forall i | from <= i < n && ops[..n][i].Add? ensures NotPruned(ops, from, expiry) ==> expiry > ops[..n][i].now {
          assert ops[i] == ops[..n][i];
        }
      }
      if NotPruned(ops[..n], from, expiry) && (ops[n].Add? ==> expiry > ops[n].now) {
        forall i | from <= i < |ops| && ops[i].Add? ensures expiry > ops[i].now {
          if i < n { assert ops[..n][i] == ops[i]; }
        }
      }
    }
  }

  /**
   The exact contents after any operations on any file, whatever the clocks said: a key's entry is the
   one its latest add wrote (or an initial one, if nothing touched the key), unless a matching revoke
   or a clear came later, or a later add of another key pruned it as expired.
   */
  lemma {:induction false} GrantExact(f: seq<Entry>, ops: seq<Op>, k: Key, expiry: int)
    ensures Holds(Run(f, ops), k, expiry) <==> ShouldHold(f, ops, k, expiry)
  {
    if ops != [] {
      var n := |ops| - 1;
      GrantExact(f, ops[..n], k, expiry);
      StepExact(Run(f, ops[..n]), ops[n], k, expiry);
      ShouldHoldStep(f, ops, k, expiry);
    }
  }

  /**
   With a clock that is nowhere ahead of `t`, pruning is invisible: `has` at `t` is true if and only
   if the latest add of the key was not followed by a matching revoke or clear and `now + ttl` exceeds `t`.
   */
  lemma HasIffGranted(f: seq<Entry>, ops: seq<Op>, k: Key, t: int)
    requires Readable(k)
    requires forall i :: 0 <= i < |ops| && ops[i].Add? ==> ops[i].now <= t
    ensures Has(Run(f, ops), k, t) <==>
            match LastWord(ops, k) {
              case Untouched => Has(f, k, t)
              case Granted(expiry, _) => expiry > t
              case Withdrawn => false
            }
  {
    var g := Run(f, ops);
    if Has(g, k, t) {
      var e :| e in ReadEntries(g) && e.key == k && e.expiresAt > t;
      GrantExact(f, ops, k, e.expiresAt);
    }
    match LastWord(ops, k)
    case Granted(expiry, _) => GrantExact(f, ops, k, expiry);
    case Untouched =>
      if Has(f, k, t) {
        var e :| e in ReadEntries(f) && e.key == k && e.expiresAt > t;
        GrantExact(f, ops, k, e.expiresAt);
      }
    case Withdrawn =>
  }

  /** With a clock that steps back, pruning shows: the grant was good until 20, and is gone at 15. */
  lemma PruningShowsIfClockStepsBack(k: Key, other: Key)
    requires Readable(k) && k != other
    ensures var ops := [Add(k, None, "medium", 10, 10), Add(other, None, "medium", 10, 30)];
      LastWord(ops, k) == Granted(20, 0) && !Has(Run([], ops), k, 15)
  {
    var ops := [Add(k, None, "medium", 10, 10), Add(other, None, "medium", 10, 30)];
    assert ops[..1] == [Add(k, None, "medium", 10, 10)];
    forall e | e in ReadEntries(Run([], ops)) ensures !(e.key == k && e.expiresAt > 15) {
      GrantExact([], ops, k, e.expiresAt);
      assert ops[1].now == 30;
    }
  }

  // ---------------------------------------------------------------------------------------------
  // One entry per key.
  // ---------------------------------------------------------------------------------------------

  function Count(f: seq<Entry>, k: Key): nat {
    if f == [] then 0 else (if f[0].key == k then 1 else 0) + Count(f[1..], k)
  }

  lemma {:induction false} CountFilter(f: seq<Entry>, keep: Entry -> bool, k: Key)
    ensures Count(Filter(f, keep), k) <= Count(f, k)
  {
    if f != [] {
      CountFilter(f[1..], keep, k);
      var rest := Filter(f[1..], keep);
      assert ([f[0]] + rest)[1..] == rest;
    }
  }

  lemma {:induction false} CountAppend(f: seq<Entry>, e: Entry, k: Key)
    ensures Count(f + [e], k) == Count(f, k) + if e.key == k then 1 else 0
  {
    if f == [] {
      assert f + [e] == [e];
    } else {
      assert (f + [e])[1..] == f[1..] + [e];
      CountAppend(f[1..], e, k);
    }
  }

  lemma {:induction false} CountNone(f: seq<Entry>, k: Key)
    requires forall e :: e in f ==> e.key != k
    ensures Count(f, k) == 0
  {
    if f != [] {
      assert f == [f[0]] + f[1..];
      CountNone(f[1..], k);
    }
  }

  lemma StepCount(f: seq<Entry>, op: Op, k: Key)
    ensures Count(Apply(f, op), k) <= if op.Add? && op.key == k then 1 else Count(f, k)
  {
    CountFilter(f, (e: Entry) => Readable(e.key), k);
    CountFilter(ReadEntries(f), (e: Entry) => Keeps(op, e), k);
    if op.Add? {
      CountAppend(Kept(f, op), Renewed(f, op.key, op.repoLabel, op.risk, op.ttl, op.now), k);
      if op.key == k { CountNone(Kept(f, op), k); }
    }
  }

  /** A key that was ever added, or that the initial file listed at most once, has at most one entry. */
  lemma {:induction false} OneEntryPerKey(f: seq<Entry>, ops: seq<Op>, k: Key)
    requires Count(f, k) <= 1 || exists i :: 0 <= i < |ops| && AddsKey(ops[i], k)
    ensures Count(Run(f, ops), k) <= 1
  {
    if ops != [] {
      var n := |ops| - 1;
      StepCount(Run(f, ops[..n]), ops[n], k);
      if !AddsKey(ops[n], k) {
        assert Count(f, k) <= 1 || exists i :: 0 <= i < |ops[..n]| && AddsKey(ops[..n][i], k) by {
          if i :| 0 <= i < |ops| && AddsKey(ops[i], k) { assert ops[..n][i] == ops[i]; }
        }
        OneEntryPerKey(f, ops[..n], k);
      }
    }
  }

  predicate AddsKey(op: Op, k: Key) {
    op.Add? && op.key == k
  }

  /** Adding a key again slides its expiry and keeps its creation time. */
  lemma RenewalKeepsCreation(f: seq<Entry>, k: Key, tag: Option<string>, risk: string, ttl: int, now: int, e: Entry)
    requires Readable(k) && Count(f, k) == 1
    requires e in f && e.key == k
    ensures Entry(k, tag, risk, e.createdAt, now + ttl) in Apply(f, Add(k, tag, risk, ttl, now))
  {
    var found := Find(ReadEntries(f), k);
    assert e in ReadEntries(f);
    OnlyOne(f, k, e, found.value);
  }

  lemma {:induction false} OnlyOne(f: seq<Entry>, k: Key, a: Entry, b: Entry)
    requires Count(f, k) == 1 && a in f && b in f && a.key == k && b.key == k
    ensures a == b
  {
    assert f == [f[0]] + f[1..];
    if f[0].key == k {
      if a != f[0] { Present(f[1..], k, a); }
      if b != f[0] { Present(f[1..], k, b); }
    } else {
      OnlyOne(f[1..], k, a, b);
    }
  }

  lemma {:induction false} Present(f: seq<Entry>, k: Key, e: Entry)
    requires e in f && e.key == k
    ensures Count(f, k) >= 1
  {
    if f[0] != e {
      assert f == [f[0]] + f[1..];
      Present(f[1..], k, e);
    }
  }

  // ---------------------------------------------------------------------------------------------
  // The store as the program runs it: every mutation holds the file lock.
  // ---------------------------------------------------------------------------------------------

  class ApprovalAllowlistStore {
    var file: seq<Entry>

    constructor (file: seq<Entry>)
      ensures this.file == file
    {
      this.file := file;
    }

    method AddApproval(k: Key, repoLabel: Option<string>, risk: string, ttl: int, now: int)
      modifies this
      ensures file == Apply(old(file), Add(k, repoLabel, risk, ttl, now))
      ensures Readable(k) ==> (Has(file, k, now) <==> ttl > 0)
    {
      var all := ReadEntries(file);
      var existing := Find(all, k);
      var op := Add(k, repoLabel, risk, ttl, now);
      var kept := Filter(all, (e: Entry) => Keeps(op, e));
      var createdAt := if existing.Some? then existing.value.createdAt else now;
      var entry := Entry(k, repoLabel, risk, createdAt, now + ttl);
      file := kept + [entry];
      assert entry in file;
    }

    method RevokeApproval(signature: string, repoScope: Option<string>) returns (removed: nat)
      modifies this
      ensures file == Apply(old(file), Revoke(signature, repoScope))
      ensures |ReadEntries(old(file))| == removed + |Kept(old(file), Revoke(signature, repoScope))|
      ensures removed == 0 <==> forall e :: e in ReadEntries(old(file)) ==>
        !(e.key.signature == signature && (repoScope == None || repoScope == Some(e.key.repoScope)))
    {
      var before := ReadEntries(file);
      var op := Revoke(signature, repoScope);
      var kept := Filter(before, (e: Entry) => Keeps(op, e));
      removed := |before| - |kept|;
      if removed == 0 {
        FilterAll(before, (e: Entry) => Keeps(op, e));
      } else if forall e :: e in before ==> Keeps(op, e) {
        FilterNone(before, (e: Entry) => Keeps(op, e));
      }
      if |kept| != |before| {
        file := kept;
      }
    }

    method ClearAll()
      modifies this
      ensures file == Apply(old(file), Clear)
    {
      file := [];
    }
  }

  lemma {:induction false} FilterNone(f: seq<Entry>, keep: Entry -> bool)
    requires forall e :: e in f ==> keep(e)
    ensures |Filter(f, keep)| == |f|
  {
    if f != [] {
      assert f == [f[0]] + f[1..];
      FilterNone(f[1..], keep);
    }
  }
}
