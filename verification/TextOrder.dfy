/**
 The orders the system sorts by: strings character by character, and events by timestamp and then
 event id, which is the canonical order of replay, of the work-items fold and of the liveness
 tie-break.
 */
module TextOrder {

  predicate Less(a: string, b: string) {
    if b == "" then false
    else if a == "" then true
    else a[0] < b[0] || (a[0] == b[0] && Less(a[1..], b[1..]))
  }

  lemma {:induction false} LessTotal(a: string, b: string)
    ensures a != b <==> Less(a, b) || Less(b, a)
    ensures !(Less(a, b) && Less(b, a))
    decreases |a|
  {
    if a != "" && b != "" {
      assert a == [a[0]] + a[1..] && b == [b[0]] + b[1..];
      LessTotal(a[1..], b[1..]);
    }
  }

  lemma {:induction false} LessTransitive(a: string, b: string, c: string)
    requires Less(a, b) && Less(b, c)
    ensures Less(a, c)
    decreases |a|
  {
    if a != "" && a[0] == b[0] && b[0] == c[0] {
      LessTransitive(a[1..], b[1..], c[1..]);
    }
  }

  /** A position in the canonical order. */
  datatype Key = Key(timestamp: int, event_id: string)

  predicate Before(k: Key, l: Key) {
    k.timestamp < l.timestamp || (k.timestamp == l.timestamp && Less(k.event_id, l.event_id))
  }

  lemma BeforeTotal(k: Key, l: Key)
    ensures k != l <==> Before(k, l) || Before(l, k)
    ensures !(Before(k, l) && Before(l, k))
  {
    LessTotal(k.event_id, l.event_id);
  }

  lemma BeforeTransitive(k: Key, l: Key, m: Key)
    requires Before(k, l) && Before(l, m)
    ensures Before(k, m)
  {
    if k.timestamp == l.timestamp == m.timestamp {
      LessTransitive(k.event_id, l.event_id, m.event_id);
    }
  }
}
