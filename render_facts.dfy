/** What one render pass promises about the two regions (js/scripts.js:100-175). */
module RenderFacts {
  import opened Wrappers
  import opened Status
  import opened Events
  import opened Cards
  import opened Buckets
  import opened StableSort
  import opened Render

  /** One sorted list: a permutation of its bucket, sorted by its key, every member kept with
      the bucket's status. */
  lemma SortedBucket(events: seq<Event>, now: Instant, parse: Parse, st: Status, key: Event -> int)
    ensures var b := Bucket(events, now, parse, st);
            var s := SortBy(b, key);
            && multiset(s) == multiset(b) && |s| == |b| && SortedBy(s, key)
            && (forall e :: e in s ==> InBucket(e, now, parse, st))
  {
    var b := Bucket(events, now, parse, st);
    var s := SortBy(b, key);
    assert |multiset(s)| == |multiset(b)|;
    forall e | e in s ensures InBucket(e, now, parse, st) {
      assert e in multiset(s);
      BucketMember(events, e, now, parse, st);
    }
  }

  /** Sorted ascending by the negated end is sorted by end, latest first. */
  lemma EndOrder(s: seq<Event>, parse: Parse)
    requires SortedBy(s, ByEndDesc(parse))
    ensures forall i, j :: 0 <= i < j < |s| ==> EndKey(s[i], parse) >= EndKey(s[j], parse)
  {
    forall i, j | 0 <= i < j < |s| ensures EndKey(s[i], parse) >= EndKey(s[j], parse) {
      assert ByEndDesc(parse)(s[i]) <= ByEndDesc(parse)(s[j]);
    }
  }

  /** Every event of the three sorted lists has a parsable start and its list's status, and each
      list is a permutation of its bucket, sorted by its key. */
  lemma ListsFacts(events: seq<Event>, now: Instant, parse: Parse)
    ensures var l := SortedLists(events, now, parse);
            && multiset(l.upcoming) == multiset(Bucket(events, now, parse, Upcoming))
            && multiset(l.live) == multiset(Bucket(events, now, parse, Live))
            && multiset(l.past) == multiset(Bucket(events, now, parse, Past))
            && (forall e :: e in l.upcoming ==> InBucket(e, now, parse, Upcoming))
            && (forall e :: e in l.live ==> InBucket(e, now, parse, Live))
            && (forall e :: e in l.past ==> InBucket(e, now, parse, Past))
            && (forall i, j :: 0 <= i < j < |l.upcoming| ==> StartKey(l.upcoming[i], parse) <= StartKey(l.upcoming[j], parse))
            && (forall i, j :: 0 <= i < j < |l.live| ==> StartKey(l.live[i], parse) <= StartKey(l.live[j], parse))
            && (forall i, j :: 0 <= i < j < |l.past| ==> EndKey(l.past[i], parse) >= EndKey(l.past[j], parse))
  {
    SortedBucket(events, now, parse, Upcoming, ByStart(parse));
    SortedBucket(events, now, parse, Live, ByStart(parse));
    SortedBucket(events, now, parse, Past, ByEndDesc(parse));
    EndOrder(SortedLists(events, now, parse).past, parse);
  }

  /** The regions a completed pass leaves are the children built from the sorted lists. */
  lemma FillRegions(upcoming: Region, past: Region, l: Lists, now: Instant, parse: Parse)
    ensures var r := Fill(upcoming, past, l, now, parse);
            && (r.ok && upcoming.Shown? ==> UpcomingNodes(l, now, parse).Some? && r.upcoming == Shown(UpcomingNodes(l, now, parse).value))
            && (r.ok && past.Shown? ==> PastNodes(l, now, parse).Some? && r.past == Shown(PastNodes(l, now, parse).value))
  {
  }

  /** Ties keep input order: events of a list with equal sort keys appear in the order the
      input array has them (js/scripts.js:136-138 on a stable `Array.prototype.sort`). */
  lemma ListsStable(events: seq<Event>, now: Instant, parse: Parse, k: int)
    ensures var l := SortedLists(events, now, parse);
            && WithKey(l.upcoming, ByStart(parse), k) == WithKey(Bucket(events, now, parse, Upcoming), ByStart(parse), k)
            && WithKey(l.live, ByStart(parse), k) == WithKey(Bucket(events, now, parse, Live), ByStart(parse), k)
            && WithKey(l.past, ByEndDesc(parse), k) == WithKey(Bucket(events, now, parse, Past), ByEndDesc(parse), k)
  {
    SortStable(Bucket(events, now, parse, Upcoming), ByStart(parse), k);
    SortStable(Bucket(events, now, parse, Live), ByStart(parse), k);
    SortStable(Bucket(events, now, parse, Past), ByEndDesc(parse), k);
  }

  /** When no card of `list` throws, `renderList` appends one card per event, in list order. */
  lemma BuildAllCards(list: seq<Event>, now: Instant, parse: Parse)
    requires forall e :: e in list ==> Kept(e, parse)
    requires BuildAll(list, now, parse).Some?
    ensures |BuildAll(list, now, parse).value| == |list|
    ensures forall i :: 0 <= i < |list| ==>
              BuildEventCard(list[i], now, parse).Built? &&
              BuildAll(list, now, parse).value[i] == BuildEventCard(list[i], now, parse).card
  {
    forall i | 0 <= i < |list|
      ensures BuildEventCard(list[i], now, parse).Built?
      ensures BuildAll(list, now, parse).value[i] == BuildEventCard(list[i], now, parse).card
    {
      BuildAllAt(list, i, now, parse);
    }
    if list != [] {
      BuildAllAt(list, 0, now, parse);
    }
  }

  lemma {:induction false} BuildAllAt(list: seq<Event>, i: nat, now: Instant, parse: Parse)
    requires forall e :: e in list ==> Kept(e, parse)
    requires BuildAll(list, now, parse).Some? && i < |list|
    ensures |BuildAll(list, now, parse).value| == |list|
    ensures BuildEventCard(list[i], now, parse).Built?
    ensures BuildAll(list, now, parse).value[i] == BuildEventCard(list[i], now, parse).card
  {
    var init := list[..|list| - 1];
    var last := list[|list| - 1];
    var b := BuildEventCard(last, now, parse);
    assert BuildAll(list, now, parse) == Append(BuildAll(init, now, parse), b);
    assert last in list;
    assert b.Built?;
    var cs := BuildAll(init, now, parse).value;
    assert BuildAll(list, now, parse).value == cs + [b.card];
    if init != [] {
      assert forall e :: e in init ==> e in list;
      BuildAllAt(init, if i < |init| then i else 0, now, parse);
    }
    if i < |init| {
      assert list[i] == init[i];
      assert (cs + [b.card])[i] == cs[i];
    } else {
      assert i == |list| - 1;
      assert (cs + [b.card])[i] == b.card;
    }
  }

  /** Building the cards of kept events throws exactly when one of them has an end that does
      not parse. */
  lemma {:induction false} BuildAllThrows(list: seq<Event>, now: Instant, parse: Parse)
    requires forall e :: e in list ==> Kept(e, parse)
    ensures BuildAll(list, now, parse).None? <==> exists e :: e in list && BadEnd(e, parse)
  {
    if list != [] {
      var init := list[..|list| - 1];
      var last := list[|list| - 1];
      assert forall e :: e in init ==> e in list;
      assert list == init + [last];
      BuildAllThrows(init, now, parse);
    }
  }

  /** Filling keeps a missing region missing and a present one present. */
  lemma FillPresence(upcoming: Region, past: Region, l: Lists, now: Instant, parse: Parse)
    ensures var r := Fill(upcoming, past, l, now, parse);
            (upcoming.Absent? <==> r.upcoming.Absent?) && (past.Absent? <==> r.past.Absent?)
  {
  }

  /** Filling clears the regions first, so their old children do not matter. */
  lemma FillShapeOnly(u: Region, p: Region, u': Region, p': Region, l: Lists, now: Instant, parse: Parse)
    requires u.Absent? == u'.Absent? && p.Absent? == p'.Absent?
    ensures Fill(u, p, l, now, parse) == Fill(u', p', l, now, parse)
  {
  }

  /** A pass with neither region present does nothing; an absent region stays absent. */
  lemma AbsentRegions(upcoming: Region, past: Region, events: seq<Event>, now: Instant, parse: Parse)
    ensures var r := RenderPass(upcoming, past, events, now, parse);
            && (upcoming.Absent? <==> r.upcoming.Absent?)
            && (past.Absent? <==> r.past.Absent?)
            && (upcoming.Absent? && past.Absent? ==> r.ok)
  {
    if upcoming.Shown? || past.Shown? {
      var l := SortedLists(events, now, parse);
      assert RenderPass(upcoming, past, events, now, parse) == Fill(upcoming, past, l, now, parse);
      FillPresence(upcoming, past, l, now, parse);
    }
  }

  /** A pass depends on which regions exist, not on what they showed before
      (js/scripts.js:109-111). */
  lemma ShapeOnly(u: Region, p: Region, u': Region, p': Region, events: seq<Event>, now: Instant, parse: Parse)
    requires u.Absent? == u'.Absent? && p.Absent? == p'.Absent?
    ensures RenderPass(u, p, events, now, parse) == RenderPass(u', p', events, now, parse)
  {
    if u.Shown? || p.Shown? {
      var l := SortedLists(events, now, parse);
      assert RenderPass(u, p, events, now, parse) == Fill(u, p, l, now, parse);
      assert RenderPass(u', p', events, now, parse) == Fill(u', p', l, now, parse);
      FillShapeOnly(u, p, u', p', l, now, parse);
    }
  }

  /** `cs` are exactly the cards `buildEventCard` makes for `list`, one per event, in order. */
  predicate CardsOf(cs: seq<Card>, list: seq<Event>, now: Instant, parse: Parse) {
    && |cs| == |list|
    && forall i :: 0 <= i < |list| ==>
         BuildEventCard(list[i], now, parse).Built? && cs[i] == BuildEventCard(list[i], now, parse).card
  }

  /** The upcoming region's children: exactly one node, which is a wrapper holding the cards of
      `live` and then the cards of `soon` (LIVE cards first, each group in start order) when
      either list is non-empty, and the empty-state message when both are empty. */
  predicate UpcomingShape(ns: seq<Node>, live: seq<Event>, soon: seq<Event>, now: Instant, parse: Parse) {
    && |ns| == 1
    && (ns[0] == EmptyMessage(NO_UPCOMING) <==> live == [] && soon == [])
    && (ns[0].Grid? <==> live != [] || soon != [])
    && (ns[0].Grid? ==>
          var cs := ns[0].cards;
          && |cs| == |live| + |soon|
          && CardsOf(cs[..|live|], live, now, parse)
          && CardsOf(cs[|live|..], soon, now, parse)
          && (forall i :: 0 <= i < |cs| ==>
                (cs[i].status == Live <==> i < |live|) && (cs[i].status == Upcoming <==> |live| <= i))
          && (forall i, j :: 0 <= i < j < |cs| && cs[i].status == cs[j].status ==>
                cs[i].when.0 <= cs[j].when.0))
  }

  /** The past region's children: exactly one node, which is a wrapper holding the cards of
      `past` (all PAST, latest end first) when it is non-empty, and the empty-state message when
      it is empty. */
  predicate PastShape(ns: seq<Node>, past: seq<Event>, now: Instant, parse: Parse) {
    && |ns| == 1
    && (ns[0] == EmptyMessage(NO_PAST) <==> past == [])
    && (ns[0].Grid? <==> past != [])
    && (ns[0].Grid? ==>
          var cs := ns[0].cards;
          && CardsOf(cs, past, now, parse)
          && (forall i :: 0 <= i < |cs| ==> cs[i].status == Past)
          && (forall i, j :: 0 <= i < j < |cs| ==> cs[i].when.1 >= cs[j].when.1))
  }

  /** The children built from sorted live and upcoming lists: live cards first, then upcoming,
      each group in start order. */
  lemma {:induction false} UpcomingGrid(l: Lists, now: Instant, parse: Parse)
    requires forall e :: e in l.live ==> InBucket(e, now, parse, Live)
    requires forall e :: e in l.upcoming ==> InBucket(e, now, parse, Upcoming)
    requires forall i, j :: 0 <= i < j < |l.live| ==> StartKey(l.live[i], parse) <= StartKey(l.live[j], parse)
    requires forall i, j :: 0 <= i < j < |l.upcoming| ==> StartKey(l.upcoming[i], parse) <= StartKey(l.upcoming[j], parse)
    requires UpcomingNodes(l, now, parse).Some?
    ensures UpcomingShape(UpcomingNodes(l, now, parse).value, l.live, l.upcoming, now, parse)
  {
    if |l.live| + |l.upcoming| > 0 {
      var liveCards := BuildAll(l.live, now, parse).value;
      var upCards := BuildAll(l.upcoming, now, parse).value;
      var cs := liveCards + upCards;
      assert UpcomingNodes(l, now, parse).value[0].cards == cs;
      BuildAllCards(l.live, now, parse);
      BuildAllCards(l.upcoming, now, parse);
      assert cs[..|l.live|] == liveCards && cs[|l.live|..] == upCards;
      forall i | 0 <= i < |cs|
        ensures cs[i].status == (if i < |l.live| then Live else Upcoming)
        ensures cs[i].when.0 == StartKey(if i < |l.live| then l.live[i] else l.upcoming[i - |l.live|], parse)
      {
        GridCardAt(l, i, now, parse);
      }
    }
  }

  /** Card i built from a list of one bucket has that bucket's status and its event's start. */
  lemma CardAt(list: seq<Event>, i: nat, st: Status, now: Instant, parse: Parse)
    requires forall e :: e in list ==> InBucket(e, now, parse, st)
    requires BuildAll(list, now, parse).Some? && i < |list|
    ensures |BuildAll(list, now, parse).value| == |list|
    ensures BuildAll(list, now, parse).value[i].status == st
    ensures BuildAll(list, now, parse).value[i].when.0 == StartKey(list[i], parse)
  {
    assert list[i] in list;
    BuildAllAt(list, i, now, parse);
  }

  lemma GridCardAt(l: Lists, i: nat, now: Instant, parse: Parse)
    requires forall e :: e in l.live ==> InBucket(e, now, parse, Live)
    requires forall e :: e in l.upcoming ==> InBucket(e, now, parse, Upcoming)
    requires BuildAll(l.live, now, parse).Some? && BuildAll(l.upcoming, now, parse).Some?
    requires i < |l.live| + |l.upcoming|
    ensures var cs := BuildAll(l.live, now, parse).value + BuildAll(l.upcoming, now, parse).value;
            && |cs| == |l.live| + |l.upcoming|
            && cs[i].status == (if i < |l.live| then Live else Upcoming)
            && cs[i].when.0 == StartKey(if i < |l.live| then l.live[i] else l.upcoming[i - |l.live|], parse)
  {
    var liveCards := BuildAll(l.live, now, parse).value;
    var upCards := BuildAll(l.upcoming, now, parse).value;
    if i < |l.live| {
      CardAt(l.live, i, Live, now, parse);
      if l.upcoming != [] {
        CardAt(l.upcoming, 0, Upcoming, now, parse);
      }
      assert (liveCards + upCards)[i] == liveCards[i];
    } else {
      CardAt(l.upcoming, i - |l.live|, Upcoming, now, parse);
      if l.live != [] {
        CardAt(l.live, 0, Live, now, parse);
      }
      assert (liveCards + upCards)[i] == upCards[i - |l.live|];
    }
  }


  /** The upcoming region after a pass that completes: one wrapper holding the cards of the live
      events and then those of the upcoming events, each list being its bucket sorted by start,
      or the empty-state message exactly when there are neither (js/scripts.js:141-160). */
  lemma UpcomingRegion(upcoming: Region, past: Region, events: seq<Event>, now: Instant, parse: Parse)
    requires upcoming.Shown? && RenderPass(upcoming, past, events, now, parse).ok
    ensures var r := RenderPass(upcoming, past, events, now, parse);
            var l := SortedLists(events, now, parse);
            && multiset(l.live) == multiset(Bucket(events, now, parse, Live))
            && multiset(l.upcoming) == multiset(Bucket(events, now, parse, Upcoming))
            && r.upcoming.Shown?
            && UpcomingShape(r.upcoming.nodes, l.live, l.upcoming, now, parse)
  {
    var l := SortedLists(events, now, parse);
    SortedBucket(events, now, parse, Upcoming, ByStart(parse));
    SortedBucket(events, now, parse, Live, ByStart(parse));
    assert RenderPass(upcoming, past, events, now, parse) == Fill(upcoming, past, l, now, parse);
    FillRegions(upcoming, past, l, now, parse);
    UpcomingGrid(l, now, parse);
  }

  /** The children built from a sorted past list: one wrapper of its PAST cards, latest end
      first, or the empty-state message exactly when the list is empty. */
  lemma PastGrid(l: Lists, now: Instant, parse: Parse)
    requires forall e :: e in l.past ==> InBucket(e, now, parse, Past)
    requires forall i, j :: 0 <= i < j < |l.past| ==> EndKey(l.past[i], parse) >= EndKey(l.past[j], parse)
    requires PastNodes(l, now, parse).Some?
    ensures PastShape(PastNodes(l, now, parse).value, l.past, now, parse)
  {
    if l.past != [] {
      BuildAllCards(l.past, now, parse);
      var cs := BuildAll(l.past, now, parse).value;
      forall i | 0 <= i < |cs|
        ensures cs[i].status == Past && cs[i].when.1 == EndKey(l.past[i], parse)
      {
        assert l.past[i] in l.past;
      }
    }
  }

  /** The past region after a pass that completes: one wrapper holding the cards of the past
      events, the past bucket sorted by end with the latest first, or the empty-state message
      exactly when there are none (js/scripts.js:163-174). */
  lemma PastRegion(upcoming: Region, past: Region, events: seq<Event>, now: Instant, parse: Parse)
    requires past.Shown? && RenderPass(upcoming, past, events, now, parse).ok
    ensures var r := RenderPass(upcoming, past, events, now, parse);
            var l := SortedLists(events, now, parse);
            && multiset(l.past) == multiset(Bucket(events, now, parse, Past))
            && r.past.Shown?
            && PastShape(r.past.nodes, l.past, now, parse)
  {
    var l := SortedLists(events, now, parse);
    SortedBucket(events, now, parse, Past, ByEndDesc(parse));
    EndOrder(l.past, parse);
    assert RenderPass(upcoming, past, events, now, parse) == Fill(upcoming, past, l, now, parse);
    FillRegions(upcoming, past, l, now, parse);
    PastGrid(l, now, parse);
  }

  /** A kept event whose end does not parse, in a region that the page has. */
  predicate Breaks(e: Event, upcoming: Region, past: Region, now: Instant, parse: Parse) {
    && Kept(e, parse) && BadEnd(e, parse)
    && (if StatusOf(e, now, parse) == Past then past.Shown? else upcoming.Shown?)
  }

  /** Membership in the sorted lists is membership in the matching bucket. */
  lemma ListsMember(events: seq<Event>, e: Event, now: Instant, parse: Parse)
    ensures var l := SortedLists(events, now, parse);
            && (e in l.upcoming <==> e in events && InBucket(e, now, parse, Upcoming))
            && (e in l.live <==> e in events && InBucket(e, now, parse, Live))
            && (e in l.past <==> e in events && InBucket(e, now, parse, Past))
  {
    var l := SortedLists(events, now, parse);
    BucketMember(events, e, now, parse, Upcoming);
    BucketMember(events, e, now, parse, Live);
    BucketMember(events, e, now, parse, Past);
    assert e in l.upcoming <==> e in multiset(l.upcoming);
    assert e in l.live <==> e in multiset(l.live);
    assert e in l.past <==> e in multiset(l.past);
  }

  /** Building the upcoming region throws exactly when a kept live or upcoming event has an end
      that does not parse. */
  lemma UpcomingThrows(events: seq<Event>, now: Instant, parse: Parse)
    ensures UpcomingNodes(SortedLists(events, now, parse), now, parse).None? <==>
              exists e :: e in events && Kept(e, parse) && BadEnd(e, parse) && StatusOf(e, now, parse) != Past
  {
    var l := SortedLists(events, now, parse);
    forall e | e in l.live || e in l.upcoming
      ensures e in events && Kept(e, parse) && StatusOf(e, now, parse) != Past
    {
      ListsMember(events, e, now, parse);
    }
    BuildAllThrows(l.live, now, parse);
    BuildAllThrows(l.upcoming, now, parse);
    forall e | e in events && Kept(e, parse) && StatusOf(e, now, parse) != Past
      ensures e in l.live || e in l.upcoming
    {
      ListsMember(events, e, now, parse);
    }
  }

  /** Building the past region throws exactly when a kept past event has an end that does not
      parse. */
  lemma PastThrows(events: seq<Event>, now: Instant, parse: Parse)
    ensures PastNodes(SortedLists(events, now, parse), now, parse).None? <==>
              exists e :: e in events && Kept(e, parse) && BadEnd(e, parse) && StatusOf(e, now, parse) == Past
  {
    var l := SortedLists(events, now, parse);
    forall e | e in l.past
      ensures e in events && Kept(e, parse) && StatusOf(e, now, parse) == Past
    {
      ListsMember(events, e, now, parse);
    }
    BuildAllThrows(l.past, now, parse);
    forall e | e in events && Kept(e, parse) && StatusOf(e, now, parse) == Past
      ensures e in l.past
    {
      ListsMember(events, e, now, parse);
    }
  }

  /** Which events make a pass throw: a kept event whose end does not parse, in a region that is
      present. A failed pass leaves the past region cleared. */
  lemma RenderFails(upcoming: Region, past: Region, events: seq<Event>, now: Instant, parse: Parse)
    ensures var r := RenderPass(upcoming, past, events, now, parse);
            && (!r.ok <==> exists e :: e in events && Breaks(e, upcoming, past, now, parse))
            && (!r.ok ==> r.past == Cleared(past))
  {
    UpcomingThrows(events, now, parse);
    PastThrows(events, now, parse);
  }

  /** Rendering replaces both regions wholesale, so a second pass with the same events and the
      same `now` changes nothing. */
  lemma RenderIdempotent(upcoming: Region, past: Region, events: seq<Event>, now: Instant, parse: Parse)
    ensures var r := RenderPass(upcoming, past, events, now, parse);
            RenderPass(r.upcoming, r.past, events, now, parse) == r
  {
    var r := RenderPass(upcoming, past, events, now, parse);
    AbsentRegions(upcoming, past, events, now, parse);
    ShapeOnly(r.upcoming, r.past, upcoming, past, events, now, parse);
  }
}
