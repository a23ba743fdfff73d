/**
 Counting redaction markers `[REDACTED:<kind>]` in stored text by how much shorter the text gets when
 they are deleted.

 Main results: `LengthDifferenceExact` (the quotient is exact and is the number of positions at which
 the marker stands), `KnownKindsAtMostAll`, and `DrillDownSum` (the per-event counts add up to the
 headline exactly when nothing was cut off by the limit).
 */
module Markers {

  predicate IsKindChar(c: char) {
    'a' <= c <= 'z' || '0' <= c <= '9' || c == '-'
  }

  predicate IsKind(k: string) {
    k != "" && forall i :: 0 <= i < |k| ==> IsKindChar(k[i])
  }

  const PREFIX: string := "[REDACTED:"

  function Marker(kind: string): string {
    PREFIX + kind + "]"
  }

  // ---------------------------------------------------------------------------------------------
  // The counting expression.
  // ---------------------------------------------------------------------------------------------

  /** SQL `replace(text, marker, '')`: deletes matches from left to right. */
  function Deleted(s: string, m: string): string
    requires m != ""
    decreases |s|
  {
    if s == "" then ""
    else if m <= s then Deleted(s[|m|..], m)
    else [s[0]] + Deleted(s[1..], m)
  }

  /** The positions at which the marker stands, counted one by one. */
  function Occurrences(s: string, m: string): nat {
    if s == "" then 0 else (if m <= s then 1 else 0) + Occurrences(s[1..], m)
  }

  lemma DeletedShorter(s: string, m: string)
    requires m != ""
    ensures |Deleted(s, m)| <= |s|
    decreases |s|
  {
  }

  function MarkerCount(blob: string, m: string): nat
    requires m != ""
  {
    DeletedShorter(blob, m);
    (|blob| - |Deleted(blob, m)|) / |m|
  }

  /** A marker opens with the only bracket of that kind it has. */
  lemma MarkerShape(kind: string)
    requires IsKind(kind)
    ensures var m := Marker(kind);
      |m| == 11 + |kind| && m[0] == '[' && forall i :: 1 <= i < |m| ==> m[i] != '['
  {
    var m := Marker(kind);
    assert |PREFIX| == 10 && PREFIX[0] == '[';
    forall i | 1 <= i < |m| ensures m[i] != '[' {
      if i < 10 {
        assert m[i] == PREFIX[i];
        PrefixPlain(i);
      } else if i < 10 + |kind| {
        assert m[i] == kind[i - 10] && IsKindChar(kind[i - 10]);
      } else {
        assert m[i] == ']';
      }
    }
  }

  lemma PrefixPlain(i: nat)
    requires 1 <= i < 10
    ensures |PREFIX| == 10 && PREFIX[i] != '[' && PREFIX[i] != ']'
  {
  }

  /** Text without an opening bracket holds no marker. */
  lemma {:induction false} SkipPlain(s: string, m: string, n: nat)
    requires n <= |s| && m != "" && m[0] == '[' && forall i :: 0 <= i < n ==> s[i] != '['
    ensures Occurrences(s, m) == Occurrences(s[n..], m)
  {
    if n == 0 {
      assert s[0..] == s;
    } else {
      SkipPlain(s[1..], m, n - 1);
      assert s[1..][n - 1..] == s[n..];
    }
  }

  /** A marker at the front is one occurrence; the next can start only after it. */
  lemma FrontMarker(s: string, kind: string)
    requires IsKind(kind) && Marker(kind) <= s
    ensures Occurrences(s, Marker(kind)) == 1 + Occurrences(s[|Marker(kind)|..], Marker(kind))
  {
    var m := Marker(kind);
    MarkerShape(kind);
    var n := |m| - 1;
    forall i | 0 <= i < n ensures s[1..][i] != '[' { assert s[1..][i] == m[i + 1]; }
    SkipPlain(s[1..], m, n);
    assert s[1..][n..] == s[|m|..];
  }

  lemma {:induction false} DeletionLength(s: string, kind: string)
    requires IsKind(kind)
    ensures |s| == |Deleted(s, Marker(kind))| + |Marker(kind)| * Occurrences(s, Marker(kind))
    decreases |s|
  {
    var m := Marker(kind);
    MarkerShape(kind);
    if s == "" {
    } else if m <= s {
      DeletionLength(s[|m|..], kind);
      FrontMarker(s, kind);
      Distribute(|m|, Occurrences(s[|m|..], m));
    } else {
      DeletionLength(s[1..], kind);
    }
  }

  lemma Distribute(a: nat, b: nat)
    ensures a * (1 + b) == a + a * b
  {
  }

  /** The length difference divides evenly, and the quotient is the number of markers in the text. */
  lemma LengthDifferenceExact(blob: string, kind: string)
    requires IsKind(kind)
    ensures var m := Marker(kind);
      && (|blob| - |Deleted(blob, m)|) % |m| == 0
      && MarkerCount(blob, m) == Occurrences(blob, m)
  {
    var m := Marker(kind);
    MarkerShape(kind);
    DeletionLength(blob, kind);
    Divide(|m|, Occurrences(blob, m));
  }

  lemma Divide(a: nat, b: nat)
    requires a > 0
    ensures (a * b) % a == 0 && (a * b) / a == b
  {
    var n := a * b;
    var q, r := n / a, n % a;
    assert a * q + r == n;
    Gap(a, b, q, r);
  }

  lemma Gap(a: nat, b: int, q: int, r: nat)
    requires a * q + r == a * b && r < a
    ensures q == b && r == 0
  {
    Stretch(a, b - q);
    Stretch(a, q - b);
    assert a * (b - q) == a * b - a * q;
    assert a * (q - b) == a * q - a * b;
  }

  lemma Stretch(a: nat, d: int)
    ensures d >= 1 ==> a * d >= a
  {
  }

  // ---------------------------------------------------------------------------------------------
  // All markers.
  // ---------------------------------------------------------------------------------------------

  /** The length of the run of kind characters at the front. */
  function KindRun(s: string): (n: nat)
    ensures n <= |s|
    ensures forall i :: 0 <= i < n ==> IsKindChar(s[i])
    ensures n < |s| ==> !IsKindChar(s[n])
  {
    if s == "" || !IsKindChar(s[0]) then 0 else 1 + KindRun(s[1..])
  }

  /** A marker of any kind stands at the front of the text. */
  predicate AnyAt(s: string) {
    && PREFIX <= s
    && var n := KindRun(s[|PREFIX|..]);
       n > 0 && |PREFIX| + n < |s| && s[|PREFIX| + n] == ']'
  }

  function MatchLength(s: string): nat
    requires AnyAt(s)
  {
    |PREFIX| + KindRun(s[|PREFIX|..]) + 1
  }

  /** SQL `regexp_count` of the marker pattern: matches from left to right, the search resuming after each. */
  function RegexCount(s: string): nat
    decreases |s|
  {
    if s == "" then 0
    else if AnyAt(s) then 1 + RegexCount(s[MatchLength(s)..])
    else RegexCount(s[1..])
  }

  function AllOccurrences(s: string): nat {
    if s == "" then 0 else (if AnyAt(s) then 1 else 0) + AllOccurrences(s[1..])
  }

  lemma {:induction false} SkipPlainAll(s: string, n: nat)
    requires n <= |s| && forall i :: 0 <= i < n ==> s[i] != '['
    ensures AllOccurrences(s) == AllOccurrences(s[n..])
  {
    if n == 0 {
      assert s[0..] == s;
    } else {
      SkipPlainAll(s[1..], n - 1);
      assert s[1..][n - 1..] == s[n..];
      assert |PREFIX| == 10 && PREFIX[0] == '[';
    }
  }

  /** Counting matches is counting the positions at which some marker stands. */
  lemma {:induction false} RegexCountExact(s: string)
    ensures RegexCount(s) == AllOccurrences(s)
    decreases |s|
  {
    if s == "" {
    } else if AnyAt(s) {
      var l := MatchLength(s);
      RegexCountExact(s[l..]);
      MatchPlain(s);
      SkipPlainAll(s[1..], l - 1);
      assert s[1..][l - 1..] == s[l..];
    } else {
      RegexCountExact(s[1..]);
    }
  }

  lemma MatchPlain(s: string)
    requires AnyAt(s)
    ensures forall i :: 0 <= i < MatchLength(s) - 1 ==> s[1..][i] != '['
  {
    var n := KindRun(s[10..]);
    forall i | 1 <= i < MatchLength(s) ensures s[i] != '[' {
      if i < 10 {
        PrefixPlain(i);
        assert s[i] == PREFIX[i];
      } else if i < 10 + n {
        assert s[i] == s[10..][i - 10];
      }
    }
  }

  lemma {:induction false} KindRunOf(k: string, x: string)
    requires (forall i :: 0 <= i < |k| ==> IsKindChar(k[i])) && (x != "" ==> !IsKindChar(x[0]))
    ensures KindRun(k + x) == |k|
  {
    if k == "" {
      assert k + x == x;
    } else {
      assert (k + x)[1..] == k[1..] + x;
      KindRunOf(k[1..], x);
    }
  }

  /** Where a marker of some kind stands, a marker stands, and its kind is determined. */
  lemma MarkerIsAny(s: string, kind: string)
    requires IsKind(kind) && Marker(kind) <= s
    ensures AnyAt(s) && kind == s[10..10 + KindRun(s[10..])]
  {
    var m := Marker(kind);
    var x := s[|m|..];
    assert s == m + x;
    assert s[10..] == kind + ("]" + x);
    KindRunOf(kind, "]" + x);
    assert PREFIX <= s;
    assert s[10 + |kind|] == ']';
  }

  predicate Distinct(kinds: seq<string>) {
    forall i, j :: 0 <= i < j < |kinds| ==> kinds[i] != kinds[j]
  }

  function Standing(s: string, kinds: seq<string>): nat {
    if kinds == [] then 0 else (if Marker(kinds[0]) <= s then 1 else 0) + Standing(s, kinds[1..])
  }

  lemma {:induction false} NoneOtherStands(s: string, kind: string, kinds: seq<string>)
    requires IsKind(kind) && Marker(kind) <= s && kind !in kinds && forall k :: k in kinds ==> IsKind(k)
    ensures Standing(s, kinds) == 0
  {
    if kinds != [] {
      assert kinds == [kinds[0]] + kinds[1..];
      MarkerIsAny(s, kind);
      if Marker(kinds[0]) <= s { MarkerIsAny(s, kinds[0]); }
      NoneOtherStands(s, kind, kinds[1..]);
    }
  }

  /** At any position at most one of several distinct kinds stands, and then some marker does. */
  lemma {:induction false} AtMostOneStands(s: string, kinds: seq<string>)
    requires Distinct(kinds) && forall k :: k in kinds ==> IsKind(k)
    ensures Standing(s, kinds) <= if AnyAt(s) then 1 else 0
  {
    if kinds != [] {
      assert kinds == [kinds[0]] + kinds[1..];
      if Marker(kinds[0]) <= s {
        MarkerIsAny(s, kinds[0]);
        NoneOtherStands(s, kinds[0], kinds[1..]);
      } else {
        AtMostOneStands(s, kinds[1..]);
      }
    }
  }

  function SumOfKinds(s: string, kinds: seq<string>): nat {
    if kinds == [] then 0 else Occurrences(s, Marker(kinds[0])) + SumOfKinds(s, kinds[1..])
  }

  lemma {:induction false} SumStep(s: string, kinds: seq<string>)
    requires s != ""
    ensures SumOfKinds(s, kinds) == Standing(s, kinds) + SumOfKinds(s[1..], kinds)
  {
    if kinds != [] { SumStep(s, kinds[1..]); }
  }

  lemma {:induction false} SumEmpty(kinds: seq<string>)
    ensures SumOfKinds("", kinds) == 0
  {
    if kinds != [] { SumEmpty(kinds[1..]); }
  }

  lemma {:induction false} SumAtMostAll(s: string, kinds: seq<string>)
    requires Distinct(kinds) && forall k :: k in kinds ==> IsKind(k)
    ensures SumOfKinds(s, kinds) <= AllOccurrences(s)
  {
    if s == "" {
      SumEmpty(kinds);
    } else {
      SumStep(s, kinds);
      AtMostOneStands(s, kinds);
      SumAtMostAll(s[1..], kinds);
    }
  }

  function SumOfCounts(s: string, kinds: seq<string>): nat {
    if kinds == [] then 0 else (MarkerNonempty(kinds[0]); MarkerCount(s, Marker(kinds[0]))) + SumOfCounts(s, kinds[1..])
  }

  lemma MarkerNonempty(kind: string)
    ensures Marker(kind) != ""
  {
  }

  /** The counts of distinct known kinds add up to at most the count of all markers. */
  lemma {:induction false} KnownKindsAtMostAll(s: string, kinds: seq<string>)
    requires Distinct(kinds) && forall k :: k in kinds ==> IsKind(k)
    ensures SumOfCounts(s, kinds) <= RegexCount(s)
  {
    RegexCountExact(s);
    SumAtMostAll(s, kinds);
    CountsAreOccurrences(s, kinds);
  }

  lemma {:induction false} CountsAreOccurrences(s: string, kinds: seq<string>)
    requires forall k :: k in kinds ==> IsKind(k)
    ensures SumOfCounts(s, kinds) == SumOfKinds(s, kinds)
  {
    if kinds != [] {
      assert kinds == [kinds[0]] + kinds[1..];
      LengthDifferenceExact(s, kinds[0]);
      CountsAreOccurrences(s, kinds[1..]);
    }
  }

  // ---------------------------------------------------------------------------------------------
  // Headline and drill-down.
  // ---------------------------------------------------------------------------------------------

  /** The rederived headline: the sum over all the session's events. */
  function Headline(blobs: seq<string>, m: string): nat
    requires m != ""
  {
    if blobs == [] then 0 else MarkerCount(blobs[0], m) + Headline(blobs[1..], m)
  }

  /** A nonempty text of lower-case letters, digits and hyphens. */
  predicate IsName(k: string) {
    k != "" && forall i :: 0 <= i < |k| ==> k[i] in "abcdefghijklmnopqrstuvwxyz0123456789-"
  }

  lemma NameChar(c: char)
    ensures c in "abcdefghijklmnopqrstuvwxyz0123456789-" <==> IsKindChar(c)
  {
  }

  lemma NameIsKind(k: string)
    ensures IsName(k) <==> k != "" && forall i :: 0 <= i < |k| ==> IsKindChar(k[i])
  {
    forall i | 0 <= i < |k| ensures k[i] in "abcdefghijklmnopqrstuvwxyz0123456789-" <==> IsKindChar(k[i]) { NameChar(k[i]); }
  }

  /** The pattern counted stands exactly where a marker with some name stands. */
  lemma PatternExact(s: string)
    ensures AnyAt(s) <==> exists k :: IsName(k) && "[REDACTED:" + k + "]" <= s
  {
    if AnyAt(s) { PatternHasName(s); }
    if k :| IsName(k) && "[REDACTED:" + k + "]" <= s { NameIsPattern(s, k); }
  }

  lemma PatternHasName(s: string)
    requires AnyAt(s)
    ensures exists k :: IsName(k) && "[REDACTED:" + k + "]" <= s
  {
    assert |PREFIX| == 10;
    var n := KindRun(s[10..]);
    var k := s[10..10 + n];
    assert forall i :: 0 <= i < n ==> k[i] == s[10..][i];
    assert s[..10] == PREFIX && s == PREFIX + k + "]" + s[10 + n + 1..];
    NameIsKind(k);
  }

  lemma NameIsPattern(s: string, k: string)
    requires IsName(k) && "[REDACTED:" + k + "]" <= s
    ensures AnyAt(s)
  {
    var m := "[REDACTED:" + k + "]";
    NameIsKind(k);
    assert |PREFIX| == 10;
    assert forall i :: 0 <= i < |m| ==> s[i] == m[i];
    assert forall i :: 0 <= i < |k| ==> s[10..][i] == k[i];
    assert s[10..][|k|] == ']';
    RunIs(s[10..], |k|);
  }

  lemma {:induction false} RunIs(s: string, n: nat)
    requires n < |s| && (forall i :: 0 <= i < n ==> IsKindChar(s[i])) && !IsKindChar(s[n])
    ensures KindRun(s) == n
  {
  }

  /** SQL `strpos(blob, marker) > 0`. */
  predicate Contains(s: string, m: string) {
    if s == "" then false else m <= s || Contains(s[1..], m)
  }

  function Candidates(blobs: seq<string>, m: string): seq<string> {
    if blobs == [] then []
    else if Contains(blobs[0], m) then [blobs[0]] + Candidates(blobs[1..], m)
    else Candidates(blobs[1..], m)
  }

  lemma {:induction false} ContainsExact(s: string, m: string)
    ensures Contains(s, m) <==> Occurrences(s, m) > 0
  {
    if s != "" { ContainsExact(s[1..], m); }
  }

  lemma {:induction false} CandidatesSum(blobs: seq<string>, kind: string)
    requires IsKind(kind)
    ensures Headline(Candidates(blobs, Marker(kind)), Marker(kind)) == Headline(blobs, Marker(kind))
    ensures forall b :: b in Candidates(blobs, Marker(kind)) ==> MarkerCount(b, Marker(kind)) > 0
  {
    var m := Marker(kind);
    if blobs != [] {
      CandidatesSum(blobs[1..], kind);
      ContainsExact(blobs[0], m);
      LengthDifferenceExact(blobs[0], kind);
      assert ([blobs[0]] + Candidates(blobs[1..], m))[1..] == Candidates(blobs[1..], m);
    }
  }

  lemma {:induction false} HeadlineSplit(blobs: seq<string>, m: string, n: nat)
    requires m != "" && n <= |blobs|
    ensures Headline(blobs, m) == Headline(blobs[..n], m) + Headline(blobs[n..], m)
  {
    if n == 0 {
      assert blobs[0..] == blobs && blobs[..0] == [];
    } else {
      HeadlineSplit(blobs[1..], m, n - 1);
      assert blobs[..n][1..] == blobs[1..][..n - 1] && blobs[1..][n - 1..] == blobs[n..];
    }
  }

  /** The drill-down: the events with the marker, at most `limit` of them, the sum of their counts, and whether there are more. */
  method DrillDown(blobs: seq<string>, kind: string, limit: nat) returns (counts: seq<nat>, total: nat, hasMore: bool)
    requires IsKind(kind)
    ensures |counts| <= limit && total <= Headline(blobs, Marker(kind))
    ensures hasMore <==> |Candidates(blobs, Marker(kind))| > limit
    ensures total == Headline(blobs, Marker(kind)) <==> !hasMore
    ensures var rows := Candidates(blobs, Marker(kind));
      && |counts| == (if hasMore then limit else |rows|)
      && forall k :: 0 <= k < |counts| ==> counts[k] == Occurrences(rows[k], Marker(kind)) > 0
  {
    var m := Marker(kind);
    var rows := Candidates(blobs, m);
    hasMore := |rows| > limit;
    CandidatesSum(blobs, kind);
    counts, total := CountRows(if hasMore then rows[..limit] else rows, m);
    forall k | 0 <= k < |counts| ensures counts[k] == Occurrences(rows[k], m) > 0 {
      assert rows[k] in rows;
      LengthDifferenceExact(rows[k], kind);
    }
    if hasMore { CutOff(rows, m, limit); }
  }

  /** The counts of some rows, and their sum. */
  method CountRows(rows: seq<string>, m: string) returns (counts: seq<nat>, total: nat)
    requires m != ""
    ensures |counts| == |rows| && forall k :: 0 <= k < |rows| ==> counts[k] == MarkerCount(rows[k], m)
    ensures total == Headline(rows, m)
  {
    counts, total := [], 0;
    for n := 0 to |rows|
      invariant |counts| == n && total == Headline(rows[..n], m)
      invariant forall k :: 0 <= k < n ==> counts[k] == MarkerCount(rows[k], m)
    {
      HeadlineSplit(rows[..n + 1], m, n);
      assert rows[..n + 1][..n] == rows[..n] && rows[..n + 1][n..] == [rows[n]];
      assert Headline([rows[n]], m) == MarkerCount(rows[n], m);
      counts := counts + [MarkerCount(rows[n], m)];
      total := total + MarkerCount(rows[n], m);
    }
    assert rows[..|rows|] == rows;
  }

  /** What is cut off counts for something. */
  lemma {:induction false} CutOff(rows: seq<string>, m: string, limit: nat)
    requires m != "" && limit < |rows| && forall b :: b in rows ==> MarkerCount(b, m) > 0
    ensures Headline(rows[..limit], m) < Headline(rows, m)
  {
    HeadlineSplit(rows, m, limit);
    assert rows[limit] in rows && rows[limit..] == [rows[limit]] + rows[limit + 1..];
  }

  /** Unlimited, the per-event counts add up to the rederived headline: both count the positions of the marker in every event. */
  lemma {:induction false} DrillDownSum(blobs: seq<string>, kind: string)
    requires IsKind(kind)
    ensures Headline(Candidates(blobs, Marker(kind)), Marker(kind)) == TotalOccurrences(blobs, Marker(kind))
  {
    CandidatesSum(blobs, kind);
    HeadlineExact(blobs, kind);
  }

  function TotalOccurrences(blobs: seq<string>, m: string): nat {
    if blobs == [] then 0 else Occurrences(blobs[0], m) + TotalOccurrences(blobs[1..], m)
  }

  lemma {:induction false} HeadlineExact(blobs: seq<string>, kind: string)
    requires IsKind(kind)
    ensures Headline(blobs, Marker(kind)) == TotalOccurrences(blobs, Marker(kind))
  {
    if blobs != [] {
      LengthDifferenceExact(blobs[0], kind);
      HeadlineExact(blobs[1..], kind);
    }
  }
}
