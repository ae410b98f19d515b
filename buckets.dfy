/**
 * The `forEach` pass of `renderAll` (js/scripts.js:113-126) that drops events whose start
 * does not parse and pushes every other event onto the list of its status.
 */
module Buckets {
  import opened Status
  import opened Events

  predicate InBucket(e: Event, now: Instant, parse: Parse, st: Status) {
    Kept(e, parse) && StatusOf(e, now, parse) == st
  }

  /** The events of `es` that land in the list of status `st`, in input order. */
  function Bucket(es: seq<Event>, now: Instant, parse: Parse, st: Status): seq<Event> {
    if es == [] then []
    else
      var last := es[|es| - 1];
      Bucket(es[..|es| - 1], now, parse, st) + (if InBucket(last, now, parse, st) then [last] else [])
  }

  /** The events of `es` whose start parses, in input order. */
  function KeptEvents(es: seq<Event>, parse: Parse): seq<Event> {
    if es == [] then []
    else
      var last := es[|es| - 1];
      KeptEvents(es[..|es| - 1], parse) + (if Kept(last, parse) then [last] else [])
  }

  method Partition(events: seq<Event>, now: Instant, parse: Parse)
    returns (upcoming: seq<Event>, live: seq<Event>, past: seq<Event>)
    ensures upcoming == Bucket(events, now, parse, Upcoming)
    ensures live == Bucket(events, now, parse, Live)
    ensures past == Bucket(events, now, parse, Past)
  {
    upcoming, live, past := [], [], [];
    for i := 0 to |events|
      invariant upcoming == Bucket(events[..i], now, parse, Upcoming)
      invariant live == Bucket(events[..i], now, parse, Live)
      invariant past == Bucket(events[..i], now, parse, Past)
    {
      var evt := events[i];
      assert events[..i + 1][..i] == events[..i];
      if !Kept(evt, parse) {
        continue;
      }
      var status := StatusOf(evt, now, parse);
      if status == Upcoming {
        upcoming := upcoming + [evt];
      } else if status == Live {
        live := live + [evt];
      } else {
        past := past + [evt];
      }
    }
    assert events[..|events|] == events;
  }

  /** Order: the bucket of a concatenation is the concatenation of the buckets. */
  lemma {:induction false} BucketAppend(a: seq<Event>, b: seq<Event>, now: Instant, parse: Parse, st: Status)
    ensures Bucket(a + b, now, parse, st) == Bucket(a, now, parse, st) + Bucket(b, now, parse, st)
    decreases |b|
  {
    if b != [] {
      var b' := b[..|b| - 1];
      assert (a + b)[..|a + b| - 1] == a + b';
      assert (a + b)[|a + b| - 1] == b[|b| - 1];
      BucketAppend(a, b', now, parse, st);
    } else {
      assert a + b == a;
    }
  }

  /** An event is in a bucket exactly when it is in the input, its start parses and it has
      that bucket's status. */
  lemma {:induction false} BucketMember(es: seq<Event>, e: Event, now: Instant, parse: Parse, st: Status)
    ensures e in Bucket(es, now, parse, st) <==> e in es && InBucket(e, now, parse, st)
  {
    if es != [] {
      var init := es[..|es| - 1];
      BucketMember(init, e, now, parse, st);
      assert es == init + [es[|es| - 1]];
    }
  }

  /** Every kept event lands in exactly one of the three lists, so together they hold the kept
      events with their multiplicities. */
  lemma {:induction false} BucketsCover(es: seq<Event>, now: Instant, parse: Parse)
    ensures multiset(Bucket(es, now, parse, Upcoming)) + multiset(Bucket(es, now, parse, Live))
              + multiset(Bucket(es, now, parse, Past)) == multiset(KeptEvents(es, parse))
    ensures |Bucket(es, now, parse, Upcoming)| + |Bucket(es, now, parse, Live)|
              + |Bucket(es, now, parse, Past)| == |KeptEvents(es, parse)|
  {
    if es != [] {
      var init := es[..|es| - 1];
      var last := es[|es| - 1];
      BucketsCover(init, now, parse);
      var one := if Kept(last, parse) then [last] else [];
      assert KeptEvents(es, parse) == KeptEvents(init, parse) + one;
      if Kept(last, parse) {
        var st := StatusOf(last, now, parse);
        assert Bucket(es, now, parse, st) == Bucket(init, now, parse, st) + [last];
      }
      assert forall st :: !InBucket(last, now, parse, st) ==> Bucket(es, now, parse, st) == Bucket(init, now, parse, st);
    }
  }
}
