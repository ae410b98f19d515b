/**
 * The render pass `renderAll` (js/scripts.js:100-175): partition, sort, and the rebuild of the
 * two regions `#upcoming-events` and `#past-events`. A region is modelled as the sequence of
 * nodes appended to it: one `events-grid` wrapper of cards or one empty-state message.
 */
module Render {
  import opened Wrappers
  import opened Status
  import opened Events
  import opened Cards
  import opened Buckets
  import opened StableSort

  const NO_UPCOMING: string := "No upcoming events at the moment."
  const NO_PAST: string := "No past events yet."

  datatype Node = Grid(cards: seq<Card>) | EmptyMessage(text: string)

  /** A mount point: absent from the page, or present with its children. */
  datatype Region = Absent | Shown(nodes: seq<Node>)

  /** `byStartAsc` (js/scripts.js:129) as a sort key. */
  function ByStart(parse: Parse): Event -> int {
    e => StartKey(e, parse)
  }

  /** `byEndDesc` (js/scripts.js:130-134): descending by end is ascending by the negated end. */
  function ByEndDesc(parse: Parse): Event -> int {
    e => -EndKey(e, parse)
  }

  datatype Lists = Lists(upcoming: seq<Event>, live: seq<Event>, past: seq<Event>)

  /** The three lists after the `forEach` pass and the three sorts (js/scripts.js:113-138). */
  function SortedLists(events: seq<Event>, now: Instant, parse: Parse): Lists {
    Lists(SortBy(Bucket(events, now, parse, Upcoming), ByStart(parse)),
          SortBy(Bucket(events, now, parse, Live), ByStart(parse)),
          SortBy(Bucket(events, now, parse, Past), ByEndDesc(parse)))
  }

  /** Appending the outcome of one `buildEventCard` call: a throw propagates, `null` is skipped. */
  function Append(cards: Option<seq<Card>>, built: Built): Option<seq<Card>> {
    match cards
    case None => None
    case Some(cs) =>
      match built
      case Threw => None
      case NoCard => Some(cs)
      case Built(card, _, _) => Some(cs + [card])
  }

  /** The cards `renderList` appends for `list`, or `None` when building one of them throws. */
  function BuildAll(list: seq<Event>, now: Instant, parse: Parse): Option<seq<Card>> {
    if list == [] then Some([])
    else Append(BuildAll(list[..|list| - 1], now, parse), BuildEventCard(list[|list| - 1], now, parse))
  }

  /** The children of the upcoming region: live cards first, then upcoming cards, or the
      empty-state message (js/scripts.js:141-160). */
  function UpcomingNodes(l: Lists, now: Instant, parse: Parse): Option<seq<Node>> {
    match BuildAll(l.live, now, parse)
    case None => None
    case Some(liveCards) =>
      match BuildAll(l.upcoming, now, parse)
      case None => None
      case Some(upCards) =>
        if |l.live| == 0 && |l.upcoming| == 0 then Some([EmptyMessage(NO_UPCOMING)])
        else Some([Grid(liveCards + upCards)])
  }

  /** The children of the past region (js/scripts.js:163-174). */
  function PastNodes(l: Lists, now: Instant, parse: Parse): Option<seq<Node>> {
    match BuildAll(l.past, now, parse)
    case None => None
    case Some(cards) =>
      if |l.past| == 0 then Some([EmptyMessage(NO_PAST)]) else Some([Grid(cards)])
  }

  function Cleared(r: Region): Region {
    if r.Shown? then Shown([]) else Absent
  }

  /** The regions after one pass, and whether the pass completed (`false`: it threw). */
  datatype Outcome = Outcome(upcoming: Region, past: Region, ok: bool)

  function RenderPass(upcoming: Region, past: Region, events: seq<Event>, now: Instant, parse: Parse): Outcome {
    if upcoming.Absent? && past.Absent? then Outcome(upcoming, past, true)
    else Fill(upcoming, past, SortedLists(events, now, parse), now, parse)
  }

  /** Filling the present regions from the sorted lists: upcoming first, then past; a throw
      stops the pass with what had been appended so far. */
  function Fill(upcoming: Region, past: Region, l: Lists, now: Instant, parse: Parse): Outcome {
    if upcoming.Shown? && UpcomingNodes(l, now, parse).None? then
      Outcome(Shown([]), Cleared(past), false)
    else
      var up := if upcoming.Shown? then Shown(UpcomingNodes(l, now, parse).value) else Absent;
      if past.Absent? then Outcome(up, Absent, true)
      else
        match PastNodes(l, now, parse)
        case None => Outcome(up, Shown([]), false)
        case Some(nodes) => Outcome(up, Shown(nodes), true)
  }

  /** `renderList` (js/scripts.js:144-149) appending to the `events-grid` wrapper; also the
      past loop (js/scripts.js:165-168). */
  method RenderList(list: seq<Event>, now: Instant, parse: Parse, wrapper: seq<Card>)
    returns (cards: seq<Card>, threw: bool)
    ensures threw <==> BuildAll(list, now, parse).None?
    ensures !threw ==> cards == wrapper + BuildAll(list, now, parse).value
  {
    cards := wrapper;
    threw := false;
    for i := 0 to |list|
      invariant BuildAll(list[..i], now, parse).Some?
      invariant cards == wrapper + BuildAll(list[..i], now, parse).value
    {
      assert list[..i + 1][..i] == list[..i];
      var built := BuildEventCard(list[i], now, parse);
      assert BuildAll(list[..i + 1], now, parse) == Append(BuildAll(list[..i], now, parse), built);
      if built.Threw? {
        BuildAllThrew(list, i, now, parse);
        threw := true;
        return;
      }
      if built.Built? {
        cards := cards + [built.card];
      }
    }
    assert list[..|list|] == list;
  }

  /** Once a prefix throws, the whole list throws. */
  lemma {:induction false} BuildAllThrew(list: seq<Event>, i: nat, now: Instant, parse: Parse)
    requires i < |list| && BuildEventCard(list[i], now, parse).Threw?
    ensures BuildAll(list, now, parse).None?
    decreases |list|
  {
    if i < |list| - 1 {
      var init := list[..|list| - 1];
      assert init[i] == list[i];
      BuildAllThrew(init, i, now, parse);
    }
  }

  /** The children built for the upcoming region, live cards first. */
  method UpcomingChildren(l: Lists, now: Instant, parse: Parse) returns (nodes: Option<seq<Node>>)
    ensures nodes == UpcomingNodes(l, now, parse)
  {
    var liveCards, threw := RenderList(l.live, now, parse, []);
    if threw {
      return None;
    }
    assert [] + BuildAll(l.live, now, parse).value == BuildAll(l.live, now, parse).value;
    var cards, threw' := RenderList(l.upcoming, now, parse, liveCards);
    if threw' {
      return None;
    }
    if |l.live| == 0 && |l.upcoming| == 0 {
      nodes := Some([EmptyMessage(NO_UPCOMING)]);
    } else {
      nodes := Some([Grid(cards)]);
    }
  }

  /** The children built for the past region. */
  method PastChildren(l: Lists, now: Instant, parse: Parse) returns (nodes: Option<seq<Node>>)
    ensures nodes == PastNodes(l, now, parse)
  {
    var cards, threw := RenderList(l.past, now, parse, []);
    if threw {
      return None;
    }
    assert [] + BuildAll(l.past, now, parse).value == BuildAll(l.past, now, parse).value;
    if |l.past| == 0 {
      nodes := Some([EmptyMessage(NO_PAST)]);
    } else {
      nodes := Some([Grid(cards)]);
    }
  }

  class Page {
    var upcoming: Region   // `#upcoming-events`
    var past: Region       // `#past-events`

    constructor (upcoming: Region, past: Region)
      ensures this.upcoming == upcoming && this.past == past
    {
      this.upcoming := upcoming;
      this.past := past;
    }

    /** One render pass with a single `now` for classification and for every card. */
    method RenderAll(events: seq<Event>, now: Instant, parse: Parse) returns (ok: bool)
      modifies this
      ensures Outcome(upcoming, past, ok) == RenderPass(old(upcoming), old(past), events, now, parse)
    {
      if upcoming.Absent? && past.Absent? {
        return true;
      }
      var hasUp, hasPast := upcoming.Shown?, past.Shown?;
      if hasUp { upcoming := Shown([]); }
      if hasPast { past := Shown([]); }

      var up, live, gone := Partition(events, now, parse);
      var l := Lists(SortBy(up, ByStart(parse)), SortBy(live, ByStart(parse)), SortBy(gone, ByEndDesc(parse)));
      assert l == SortedLists(events, now, parse);

      if hasUp {
        var nodes := UpcomingChildren(l, now, parse);
        if nodes.None? {
          return false;
        }
        upcoming := Shown(nodes.value);
      }
      if hasPast {
        var nodes := PastChildren(l, now, parse);
        if nodes.None? {
          return false;
        }
        past := Shown(nodes.value);
      }
      return true;
    }
  }
}
