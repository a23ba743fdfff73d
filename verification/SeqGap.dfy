/**
 How many events a session has lost, estimated from the sequence numbers of those that arrived.

 Main results: `GapIsHoles` (the formula counts the numbers missing between the least and the greatest
 received), `GapIsLowerBound` (never more than was truly lost, with equality exactly when neither end
 was lost), `EvaluateSeqMissing` (the loop, with its density suppression) and `ProviderSumBounded`.
 */
module SeqGap {

  /** The valid numbers among those stored; repeats collapse. */
  function Received(seqs: seq<int>): set<int> {
    set s | s in seqs && s >= 0
  }

  lemma Inhabited(d: set<int>)
    ensures d == {} || exists x :: x in d
  {
    if forall x :: x !in d { assert d == {}; }
  }

  ghost function Least(d: set<int>): (m: int)
    requires d != {}
    ensures m in d && forall x :: x in d ==> m <= x
  {
    Inhabited(d);
    var x :| x in d;
    var rest := d - {x};
    if rest == {} then (assert d == {x}; x)
    else
      var m := Least(rest);
      assert d == rest + {x};
      if x < m then x else m
  }

  ghost function Greatest(d: set<int>): (m: int)
    requires d != {}
    ensures m in d && forall x :: x in d ==> x <= m
  {
    Inhabited(d);
    var x :| x in d;
    var rest := d - {x};
    if rest == {} then (assert d == {x}; x)
    else
      var m := Greatest(rest);
      assert d == rest + {x};
      if m < x then x else m
  }

  /** The formula of the query: the span of the received numbers less how many there are. */
  ghost function RawMissing(d: set<int>): int {
    if d == {} then 0 else Greatest(d) - Least(d) + 1 - |d|
  }

  function Interval(lo: int, hi: int): (r: set<int>)
    ensures forall x :: x in r <==> lo <= x < hi
    decreases hi - lo
  {
    if lo >= hi then {} else Interval(lo, hi - 1) + {hi - 1}
  }

  lemma {:induction false} IntervalSize(lo: int, hi: int)
    requires lo <= hi
    ensures |Interval(lo, hi)| == hi - lo
    decreases hi - lo
  {
    if lo < hi { IntervalSize(lo, hi - 1); }
  }

  lemma SubsetSize(a: set<int>, b: set<int>)
    requires a <= b
    ensures |b - a| == |b| - |a| && |a| <= |b|
  {
    assert b == a + (b - a);
  }

  /** The numbers between the least and the greatest received that did not arrive. */
  ghost function Holes(d: set<int>): set<int> {
    if d == {} then {} else Interval(Least(d), Greatest(d) + 1) - d
  }

  /** A hole is a number that did not arrive while a smaller and a greater one did. */
  lemma HolesExact(seqs: seq<int>, x: int)
    ensures x in Holes(Received(seqs)) <==>
      x !in seqs && exists a, b :: a in seqs && b in seqs && 0 <= a < x < b
  {
    var d := Received(seqs);
    if x in Holes(d) {
      assert Least(d) in seqs && Greatest(d) in seqs && 0 <= Least(d) < x < Greatest(d);
    }
    if a, b :| a in seqs && b in seqs && 0 <= a < x < b {
      assert a in d && b in d;
    }
  }

  lemma GapIsHoles(d: set<int>)
    ensures RawMissing(d) == |Holes(d)|
  {
    if d != {} {
      IntervalSize(Least(d), Greatest(d) + 1);
      SubsetSize(d, Interval(Least(d), Greatest(d) + 1));
    }
  }

  /** For a sender numbering consecutively from `first`, and any part of it received: at most what was lost, and exactly that iff both ends arrived. */
  lemma GapIsLowerBound(d: set<int>, first: int, next: int)
    requires d <= Interval(first, next) && d != {}
    ensures var lost := Interval(first, next) - d;
      && 0 <= RawMissing(d) <= |lost|
      && (RawMissing(d) == |lost| <==> first in d && next - 1 in d)
  {
    var sent := Interval(first, next);
    GapIsHoles(d);
    IntervalSize(first, next);
    SubsetSize(d, sent);
    assert first <= Least(d) && Greatest(d) <= next - 1;
    assert RawMissing(d) == |sent - d| <==> Least(d) == first && Greatest(d) == next - 1;
  }

  /** A session whose span is mostly holes is not numbered per session; its figure is suppressed. */
  ghost predicate Suppressed(d: set<int>) {
    RawMissing(d) > |d|
  }

  ghost function Missing(d: set<int>): int {
    if Suppressed(d) then 0 else RawMissing(d)
  }

  /** The evaluation of one session, as the shared function runs it. */
  method EvaluateSeqMissing(seqs: seq<int>) returns (missing: nat, distinctCount: nat, suppressed: bool)
    ensures distinctCount == |set s | s in seqs && s >= 0|
    ensures suppressed <==> |Holes(Received(seqs))| > distinctCount
    ensures missing == if suppressed then 0 else |Holes(Received(seqs))|
    ensures missing == Missing(Received(seqs)) && suppressed == Suppressed(Received(seqs))
  {
    var lo, hi, distinct := 0, 0, {};
    for n := 0 to |seqs|
      invariant distinct == Received(seqs[..n])
      invariant distinct != {} ==> lo in distinct && hi in distinct && forall x :: x in distinct ==> lo <= x <= hi
    {
      var s := seqs[n];
      assert seqs[..n + 1] == seqs[..n] + [s];
      if s >= 0 {
        if distinct == {} || s < lo { lo := s; }
        if distinct == {} || s > hi { hi := s; }
        distinct := distinct + {s};
      }
    }
    assert seqs[..|seqs|] == seqs;
    GapIsHoles(distinct);
    distinctCount := |distinct|;
    if distinctCount == 0 {
      return 0, 0, false;
    }
    assert lo == Least(distinct) && hi == Greatest(distinct);
    var raw := hi - lo + 1 - distinctCount;
    var rawMissing := if raw > 0 then raw else 0;
    suppressed := rawMissing > distinctCount;
    missing := if suppressed then 0 else rawMissing;
  }

  /** Neither order nor repetition of deliveries matters. */
  lemma OnlyTheSetMatters(a: seq<int>, b: seq<int>)
    requires forall x :: x in a <==> x in b
    ensures Missing(Received(a)) == Missing(Received(b))
  {
    assert Received(a) == Received(b);
  }

  lemma {:induction false} ReceivedAtMostStored(seqs: seq<int>)
    ensures |Received(seqs)| <= |seqs|
  {
    if seqs == [] {
      assert Received(seqs) == {};
    } else {
      var n := |seqs| - 1;
      ReceivedAtMostStored(seqs[..n]);
      assert seqs == seqs[..n] + [seqs[n]];
      assert Received(seqs) <= Received(seqs[..n]) + {seqs[n]};
      SubsetSize(Received(seqs), Received(seqs[..n]) + {seqs[n]});
    }
  }

  ghost function ProviderSum(sessions: seq<seq<int>>): int {
    if sessions == [] then 0 else Missing(Received(sessions[0])) + ProviderSum(sessions[1..])
  }

  /** The sum is over all sessions, each with its own figure. */
  lemma {:induction false} ProviderSumAdds(a: seq<seq<int>>, s: seq<int>, b: seq<seq<int>>)
    ensures ProviderSum(a + [s] + b) == ProviderSum(a) + Missing(Received(s)) + ProviderSum(b)
  {
    var all := a + [s] + b;
    if a == [] {
      assert all[1..] == b;
    } else {
      assert all[1..] == a[1..] + [s] + b;
      ProviderSumAdds(a[1..], s, b);
    }
  }

  function Stored(sessions: seq<seq<int>>): nat {
    if sessions == [] then 0 else |sessions[0]| + Stored(sessions[1..])
  }

  /** Over all of a provider's sessions, whatever was sent, the figure is non-negative and at most the number of stored events. */
  lemma {:induction false} ProviderSumBounded(sessions: seq<seq<int>>)
    ensures 0 <= ProviderSum(sessions) <= Stored(sessions)
  {
    if sessions != [] {
      GapIsHoles(Received(sessions[0]));
      ReceivedAtMostStored(sessions[0]);
      ProviderSumBounded(sessions[1..]);
    }
  }

  /** What a provider's consecutively numbering senders truly lost. */
  datatype Sender = Sender(first: int, next: int, stored: seq<int>)

  predicate Honest(s: Sender) {
    0 <= s.first && forall x :: x in s.stored ==> s.first <= x < s.next
  }

  function Lost(s: Sender): set<int> {
    Interval(s.first, s.next) - Received(s.stored)
  }

  ghost function SenderSum(ss: seq<Sender>): int {
    if ss == [] then 0 else Missing(Received(ss[0].stored)) + SenderSum(ss[1..])
  }

  function TotalLost(ss: seq<Sender>): nat {
    if ss == [] then 0 else |Lost(ss[0])| + TotalLost(ss[1..])
  }

  /** For honest senders the provider's figure never exceeds what was truly lost. */
  lemma {:induction false} ProviderSumSound(ss: seq<Sender>)
    requires forall k :: 0 <= k < |ss| ==> Honest(ss[k])
    ensures SenderSum(ss) <= TotalLost(ss)
  {
    if ss != [] {
      var d := Received(ss[0].stored);
      GapIsHoles(d);
      assert Honest(ss[0]);
      if d != {} { GapIsLowerBound(d, ss[0].first, ss[0].next); }
      ProviderSumSound(ss[1..]);
    }
  }
}
