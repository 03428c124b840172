/**
 * `get_events`: the ten most recent stored documents by their `timestamp`
 * text, newest first, mapped through the formatter.
 */
module Listing {
  import opened Wrappers
  import opened Formatter

  /** The `limit(10)` of the recency query. */
  const QueryLimit: nat := 10

  /** Code-point order on strings, as the store compares string values. */
  predicate TextLeq(a: string, b: string)
    decreases |a|
  {
    if |a| == 0 then true
    else if |b| == 0 then false
    else if a[0] != b[0] then a[0] < b[0]
    else TextLeq(a[1..], b[1..])
  }

  /** Any two strings are ordered one way or the other. */
  lemma {:induction false} TextLeqTotal(a: string, b: string)
    ensures TextLeq(a, b) || TextLeq(b, a)
    decreases |a|
  {
    if |a| > 0 && |b| > 0 && a[0] == b[0] {
      TextLeqTotal(a[1..], b[1..]);
    }
  }

  /** Every string is ordered with itself. */
  lemma {:induction false} TextLeqReflexive(a: string)
    ensures TextLeq(a, a)
    decreases |a|
  {
    if |a| > 0 {
      TextLeqReflexive(a[1..]);
    }
  }

  /** Strings ordered both ways are equal. */
  lemma {:induction false} TextLeqAntisymmetric(a: string, b: string)
    requires TextLeq(a, b) && TextLeq(b, a)
    ensures a == b
    decreases |a|
  {
    if |a| > 0 {
      TextLeqAntisymmetric(a[1..], b[1..]);
      assert a == [a[0]] + a[1..] && b == [b[0]] + b[1..];
    }
  }

  /** Order through a middle string carries over. */
  lemma {:induction false} TextLeqTransitive(a: string, b: string, c: string)
    requires TextLeq(a, b) && TextLeq(b, c)
    ensures TextLeq(a, c)
    decreases |a|
  {
    if |a| > 0 && a[0] == b[0] && b[0] == c[0] {
      TextLeqTransitive(a[1..], b[1..], c[1..]);
    }
  }

  /** The sort key order: a missing timestamp sorts below every string. */
  predicate StampLeq(a: Option<string>, b: Option<string>) {
    a.None? || (b.Some? && TextLeq(a.value, b.value))
  }

  /**
   * `find().sort('timestamp', DESCENDING).limit(10)` over `store`: `fetched`
   * holds min(10, |store|) of the stored documents, in non-increasing
   * timestamp order, and no document left behind sorts above the last one
   * fetched. Documents with equal timestamps may come in any order.
   */
  predicate Recent(store: seq<Document>, fetched: seq<Document>) {
    && |fetched| == (if |store| < QueryLimit then |store| else QueryLimit)
    && multiset(fetched) <= multiset(store)
    && (forall i, j :: 0 <= i < j < |fetched| ==> StampLeq(fetched[j].timestamp, fetched[i].timestamp))
    && (|fetched| > 0 ==>
          forall d | d in multiset(store) - multiset(fetched) ::
            StampLeq(d.timestamp, fetched[|fetched| - 1].timestamp))
  }

  /** `[format_event(event) for event in events]`: one string per document, in order. */
  function FormatAll(events: seq<Document>): (lines: seq<string>)
    ensures |lines| == |events|
    ensures forall i :: 0 <= i < |events| ==> lines[i] == FormatEvent(events[i])
  {
    if |events| == 0 then [] else [FormatEvent(events[0])] + FormatAll(events[1..])
  }

  /** The first document fetched has the greatest timestamp in the whole store. */
  lemma NewestFirst(store: seq<Document>, fetched: seq<Document>)
    requires Recent(store, fetched) && |store| > 0
    ensures forall d | d in store :: StampLeq(d.timestamp, fetched[0].timestamp)
  {
    var top := fetched[0].timestamp;
    var last := fetched[|fetched| - 1].timestamp;
    assert StampLeq(last, top) by {
      if |fetched| > 1 {
        assert StampLeq(fetched[|fetched| - 1].timestamp, fetched[0].timestamp);
      } else if top.Some? {
        TextLeqReflexive(top.value);
      }
    }
    forall d | d in store
      ensures StampLeq(d.timestamp, top)
    {
      if d in multiset(fetched) {
        var i :| 0 <= i < |fetched| && fetched[i] == d;
        if i == 0 && top.Some? {
          TextLeqReflexive(top.value);
        }
      } else {
        assert d in multiset(store) - multiset(fetched);
        assert StampLeq(d.timestamp, last);
        if d.timestamp.Some? {
          TextLeqTransitive(d.timestamp.value, last.value, top.value);
        }
      }
    }
  }

  /** The formatted recent documents: at most ten, newest first. */
  function GetEvents(store: seq<Document>, fetched: seq<Document>): (lines: seq<string>)
    requires Recent(store, fetched)
    ensures |lines| <= QueryLimit
    ensures |store| >= QueryLimit ==> |lines| == QueryLimit
    ensures |lines| == |fetched|
    ensures forall i :: 0 <= i < |fetched| ==> lines[i] == FormatEvent(fetched[i])
  {
    FormatAll(fetched)
  }

  /**
   * The order is textual, not chronological: `2024-03-01T15:00:00+05:30`
   * (09:30 UTC) sorts above `2024-03-01T10:00:00Z` (10:00 UTC).
   */
  lemma TextOrderIsNotTime(early: string, late: string)
    requires early == "2024-03-01T15:00:00+05:30" && late == "2024-03-01T10:00:00Z"
    ensures TextLeq(late, early) && !TextLeq(early, late)
  {
    FirstDifference(late, early, 12);
  }

  /** Strings that agree up to position `k` and differ there are ordered by that position. */
  lemma FirstDifference(a: string, b: string, k: nat)
    requires k < |a| && k < |b| && a[..k] == b[..k] && a[k] < b[k]
    ensures TextLeq(a, b) && !TextLeq(b, a)
  {
    TextLeqCommonPrefix(a, b, k);
    TextLeqCommonPrefix(b, a, k);
  }

  /** Past a common prefix, the order is decided by the rest. */
  lemma {:induction false} TextLeqCommonPrefix(a: string, b: string, k: nat)
    requires k <= |a| && k <= |b| && a[..k] == b[..k]
    ensures TextLeq(a, b) == TextLeq(a[k..], b[k..])
    decreases k
  {
    if k > 0 {
      assert a[0] == a[..k][0] && b[0] == b[..k][0];
      assert a[1..][..k - 1] == a[..k][1..] && b[1..][..k - 1] == b[..k][1..];
      TextLeqCommonPrefix(a[1..], b[1..], k - 1);
      assert a[1..][k - 1..] == a[k..] && b[1..][k - 1..] == b[k..];
    }
  }

  /**
   * So the listing puts a push stamped `2024-03-01T15:00:00+05:30` above a
   * pull request stamped `2024-03-01T10:00:00Z`, though it happened earlier.
   */
  lemma ListedByText(store: seq<Document>, fetched: seq<Document>, utc: Document, ist: Document)
    requires utc.timestamp == Some("2024-03-01T10:00:00Z")
    requires ist.timestamp == Some("2024-03-01T15:00:00+05:30")
    requires store == [utc, ist] && Recent(store, fetched)
    ensures fetched == [ist, utc]
  {
    UtcBelowIst(utc.timestamp, ist.timestamp);
    TwoListed(store, fetched, utc, ist);
  }

  /** The two stamps of that example, compared as the store compares them. */
  lemma UtcBelowIst(utc: Option<string>, ist: Option<string>)
    requires utc == Some("2024-03-01T10:00:00Z")
    requires ist == Some("2024-03-01T15:00:00+05:30")
    ensures !StampLeq(ist, utc)
  {
    TextOrderIsNotTime(ist.value, utc.value);
  }

  /** Of two stored documents, the one whose timestamp sorts strictly higher is listed first. */
  lemma TwoListed(store: seq<Document>, fetched: seq<Document>, lo: Document, hi: Document)
    requires store == [lo, hi] && Recent(store, fetched)
    requires !StampLeq(hi.timestamp, lo.timestamp)
    ensures fetched == [hi, lo]
  {
    assert |fetched| == 2;
    assert fetched == [fetched[0], fetched[1]];
    assert fetched[0] in multiset(store) && fetched[1] in multiset(store) by {
      assert fetched[0] in multiset(fetched) && fetched[1] in multiset(fetched);
    }
    TextLeqReflexive(if hi.timestamp.Some? then hi.timestamp.value else "");
    assert lo != hi;
    assert multiset(store)[fetched[0]] == 1;
    assert multiset(fetched) == multiset{fetched[0], fetched[1]};
    assert fetched[0] != fetched[1];
    assert StampLeq(fetched[1].timestamp, fetched[0].timestamp);
  }
}
