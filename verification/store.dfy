/**
 * The deduplication gate of the webhook handler over an in-memory store:
 * a candidate record is appended only when no stored record has the same
 * `(request_id, action)` key.
 */
module Store {
  import opened Wrappers
  import opened Events

  type Key = (string, Action)

  predicate HasKey(store: seq<Record>, key: Key) {
    exists i :: 0 <= i < |store| && store[i].Key() == key
  }

  /** At most one stored record per key. */
  predicate UniqueKeys(store: seq<Record>) {
    forall i, j :: 0 <= i < j < |store| ==> store[i].Key() != store[j].Key()
  }

  function KeySet(store: seq<Record>): set<Key> {
    set i | 0 <= i < |store| :: store[i].Key()
  }

  predicate IsPrefix(s: seq<Record>, t: seq<Record>) {
    |s| <= |t| && t[..|s|] == s
  }

  /** The store's `find_one` on `request_id` and `action`. */
  function FindByKey(store: seq<Record>, key: Key): (r: Option<Record>)
    ensures r.Some? <==> HasKey(store, key)
    ensures r.Some? ==> r.value in store && r.value.Key() == key
  {
    if |store| == 0 then None
    else if store[|store| - 1].Key() == key then Some(store[|store| - 1])
    else
      var r := FindByKey(store[..|store| - 1], key);
      assert forall i :: 0 <= i < |store| - 1 ==> store[..|store| - 1][i] == store[i];
      r
  }

  /** The check-then-insert: the candidate is stored unless its key is already present. */
  function Gate(store: seq<Record>, candidate: Record): (r: seq<Record>)
    ensures HasKey(store, candidate.Key()) ==> r == store
    ensures !HasKey(store, candidate.Key()) ==> r == store + [candidate]
    ensures HasKey(r, candidate.Key())
    ensures UniqueKeys(store) ==> UniqueKeys(r)
  {
    if FindByKey(store, candidate.Key()).Some? then store
    else
      var r := store + [candidate];
      assert r[|store|].Key() == candidate.Key();
      r
  }

  /** The handler's reply: pushes without a head commit are acknowledged as ignored. */
  datatype Status = IgnoredNoHeadCommit | Success

  /** One webhook delivery: normalise, then pass the record (if any) through the gate. */
  function HandleWebhook(store: seq<Record>, p: Payload): (r: (seq<Record>, Status))
    ensures r.1 == IgnoredNoHeadCommit <==> p.PushPayload? && p.headCommit.None?
    ensures Normalize(p).None? ==> r.0 == store
    ensures Normalize(p).Some? && HasKey(store, Normalize(p).value.Key()) ==> r.0 == store
    ensures Normalize(p).Some? && !HasKey(store, Normalize(p).value.Key()) ==>
      r.0 == store + [Normalize(p).value]
    ensures UniqueKeys(store) ==> UniqueKeys(r.0)
  {
    if p.PushPayload? && p.headCommit.None? then (store, IgnoredNoHeadCommit)
    else
      match Normalize(p)
      case None => (store, Success)
      case Some(record) => (Gate(store, record), Success)
  }

  function Deliver(store: seq<Record>, p: Payload): seq<Record> {
    HandleWebhook(store, p).0
  }

  /** Delivering the same event twice has the effect of delivering it once. */
  lemma DeliverIdempotent(store: seq<Record>, p: Payload)
    ensures Deliver(Deliver(store, p), p) == Deliver(store, p)
  {
  }

  /** A sequence of deliveries, in order. */
  function DeliverAll(store: seq<Record>, ps: seq<Payload>): seq<Record>
    decreases |ps|
  {
    if |ps| == 0 then store else DeliverAll(Deliver(store, ps[0]), ps[1..])
  }

  /** The keys of the records that a batch of deliveries normalises to. */
  function BatchKeys(ps: seq<Payload>): set<Key> {
    set i | 0 <= i < |ps| && Normalize(ps[i]).Some? :: Normalize(ps[i]).value.Key()
  }

  /** Every record a batch produces has its key in `t`. */
  predicate Covers(t: seq<Record>, ps: seq<Payload>) {
    forall i :: 0 <= i < |ps| && Normalize(ps[i]).Some? ==> HasKey(t, Normalize(ps[i]).value.Key())
  }

  lemma PrefixKeeps(s: seq<Record>, t: seq<Record>, key: Key)
    requires IsPrefix(s, t) && HasKey(s, key)
    ensures HasKey(t, key)
  {
    var i :| 0 <= i < |s| && s[i].Key() == key;
    assert t[i] == t[..|s|][i];
  }

  /** A batch only appends, keeps keys unique, and leaves every produced key stored. */
  lemma {:induction false} DeliverAllInvariant(store: seq<Record>, ps: seq<Payload>)
    ensures IsPrefix(store, DeliverAll(store, ps))
    ensures UniqueKeys(store) ==> UniqueKeys(DeliverAll(store, ps))
    ensures Covers(DeliverAll(store, ps), ps)
    ensures KeySet(DeliverAll(store, ps)) == KeySet(store) + BatchKeys(ps)
    decreases |ps|
  {
    var t := DeliverAll(store, ps);
    if |ps| == 0 {
      assert BatchKeys(ps) == {};
    } else {
      var s1 := Deliver(store, ps[0]);
      DeliverAllInvariant(s1, ps[1..]);
      assert t == DeliverAll(s1, ps[1..]);
      assert IsPrefix(store, s1);
      assert t[..|store|] == t[..|s1|][..|store|];
      forall i | 0 <= i < |ps| && Normalize(ps[i]).Some?
        ensures HasKey(t, Normalize(ps[i]).value.Key())
      {
        if i == 0 {
          PrefixKeeps(s1, t, Normalize(ps[0]).value.Key());
        } else {
          assert ps[1..][i - 1] == ps[i];
        }
      }
      KeySetDeliver(store, ps[0]);
      BatchKeysCons(ps);
    }
  }

  lemma KeySetDeliver(store: seq<Record>, p: Payload)
    ensures KeySet(Deliver(store, p)) ==
      KeySet(store) + (if Normalize(p).Some? then {Normalize(p).value.Key()} else {})
  {
    var s1 := Deliver(store, p);
    if Normalize(p).Some? {
      var k := Normalize(p).value.Key();
      if HasKey(store, k) {
        var i :| 0 <= i < |store| && store[i].Key() == k;
        assert k in KeySet(store);
      } else {
        assert s1 == store + [Normalize(p).value];
        assert s1[|store|].Key() == k;
        assert KeySet(s1) == KeySet(store) + {k} by {
          forall x | x in KeySet(s1) ensures x in KeySet(store) + {k} {
            var j :| 0 <= j < |s1| && s1[j].Key() == x;
            if j < |store| { assert store[j] == s1[j]; }
          }
          forall x | x in KeySet(store) ensures x in KeySet(s1) {
            var j :| 0 <= j < |store| && store[j].Key() == x;
            assert s1[j] == store[j];
          }
        }
      }
    }
  }

  lemma BatchKeysCons(ps: seq<Payload>)
    requires |ps| >= 1
    ensures BatchKeys(ps) ==
      (if Normalize(ps[0]).Some? then {Normalize(ps[0]).value.Key()} else {}) + BatchKeys(ps[1..])
  {
    var rest := ps[1..];
    forall x | x in BatchKeys(ps)
      ensures x in (if Normalize(ps[0]).Some? then {Normalize(ps[0]).value.Key()} else {}) + BatchKeys(rest)
    {
      var i :| 0 <= i < |ps| && Normalize(ps[i]).Some? && Normalize(ps[i]).value.Key() == x;
      if i > 0 { assert rest[i - 1] == ps[i]; }
    }
    forall x | x in BatchKeys(rest) ensures x in BatchKeys(ps) {
      var i :| 0 <= i < |rest| && Normalize(rest[i]).Some? && Normalize(rest[i]).value.Key() == x;
      assert ps[i + 1] == rest[i];
    }
  }

  /** Delivering a batch whose records are all already stored changes nothing. */
  lemma {:induction false} DeliverAllCovered(t: seq<Record>, ps: seq<Payload>)
    requires Covers(t, ps)
    ensures DeliverAll(t, ps) == t
    decreases |ps|
  {
    if |ps| > 0 {
      assert Deliver(t, ps[0]) == t;
      assert Covers(t, ps[1..]) by {
        forall i | 0 <= i < |ps[1..]| && Normalize(ps[1..][i]).Some?
          ensures HasKey(t, Normalize(ps[1..][i]).value.Key())
        {
          assert ps[1..][i] == ps[i + 1];
        }
      }
      DeliverAllCovered(t, ps[1..]);
    }
  }

  /** GitHub may redeliver a whole batch: the second delivery stores nothing new. */
  lemma RedeliverBatch(store: seq<Record>, ps: seq<Payload>)
    ensures DeliverAll(DeliverAll(store, ps), ps) == DeliverAll(store, ps)
  {
    DeliverAllInvariant(store, ps);
    DeliverAllCovered(DeliverAll(store, ps), ps);
  }
}
