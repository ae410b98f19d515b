/**
 * The earlier events page, scripts.js: a fixed list of events split once into an upcoming and a
 * past container, with one countdown interval per upcoming event.
 */
module Legacy {
  import opened Wrappers
  import opened Status
  import opened Events
  import opened Countdown

  datatype LegacyEvent = LegacyEvent(name: Option<string>, date: string, description: Option<string>)

  /** The built-in list (scripts.js:4-16). */
  const EVENTS: seq<LegacyEvent> := [
    LegacyEvent(Some("Health Camp"), "2025-11-15T09:00:00",
                Some("A health outreach program with Red Cross, Aga Khan, and other partners.")),
    LegacyEvent(Some("Agricultural Expo"), "2025-12-02T10:00:00",
                Some("An expo showcasing modern agricultural practices and innovations."))
  ]

  const LOADING: string := "Loading countdown..."
  const PASSED: string := "This event has passed."
  const STARTED: string := "Event has started!"

  /** `formatTime` (scripts.js:21-28): the same decomposition as the countdown, without the
      clamp at zero. */
  function FormatTime(ms: int): (s: string)
    ensures ms >= 0 ==> exists t :: InRange(t) && Recompose(t) <= ms < Recompose(t) + MS_PER_SECOND && s == Text(t)
  {
    Text(Decompose(ms))
  }

  /** Without the clamp a negative input gives a negative day count and the other fields
      between minus their unit count and zero: `Math.floor` rounds down while `%` keeps the
      dividend's sign. The page never calls it so. */
  lemma NegativeFields(ms: int)
    requires ms < 0
    ensures var t := Decompose(ms);
            && t.days <= -1
            && -24 <= t.hours <= 0 && -60 <= t.minutes <= 0 && -60 <= t.seconds <= 0
  {
    var rd := JsRem(ms, MS_PER_DAY);
    var rh := JsRem(ms, MS_PER_HOUR);
    var rm := JsRem(ms, MS_PER_MINUTE);
    assert -MS_PER_DAY < rd <= 0 && -MS_PER_HOUR < rh <= 0 && -MS_PER_MINUTE < rm <= 0;
  }

  /** -1 ms: every field comes out as -1; -60000 ms: a whole minute leaves the seconds at 0. */
  lemma FormatTimeNegative()
    ensures FormatTime(-1) == "-1d -1h -1m -1s"
    ensures FormatTime(-60000) == "-1d -1h -1m 0s"
  {
    assert Decompose(-1) == Dhms(-1, -1, -1, -1);
    assert Decompose(-60000) == Dhms(-1, -1, -1, 0);
    TextOfMinusOnes();
    TextOfMinusMinute();
  }

  lemma TextOfMinusOnes()
    ensures Text(Dhms(-1, -1, -1, -1)) == "-1d -1h -1m -1s"
  {
    assert IntToString(-1) == "-1";
  }

  lemma TextOfMinusMinute()
    ensures Text(Dhms(-1, -1, -1, 0)) == "-1d -1h -1m 0s"
  {
    assert IntToString(-1) == "-1" && IntToString(0) == "0";
  }

  /** `eventDate > now` (scripts.js:59): an unparsable date is an Invalid Date, and comparing
      its NaN is false. */
  predicate IsUpcoming(e: LegacyEvent, now: Instant, parse: Parse) {
    parse(e.date).Some? && parse(e.date).value > now
  }

  /** One `div.event`: title, description and the timer paragraph, with the target instant
      while its countdown interval is running. */
  datatype Entry = Entry(title: string, description: string, timer: string, countdown: Option<Instant>)

  function EntryFor(e: LegacyEvent, now: Instant, parse: Parse): Entry {
    if IsUpcoming(e, now, parse) then
      Entry(e.name.GetOr(""), e.description.GetOr(""), LOADING, parse(e.date))
    else
      Entry(e.name.GetOr(""), e.description.GetOr(""), PASSED, None)
  }

  /** The entries appended to the upcoming container, in array order. */
  function UpcomingEntries(events: seq<LegacyEvent>, now: Instant, parse: Parse): seq<Entry> {
    if events == [] then []
    else
      var last := events[|events| - 1];
      UpcomingEntries(events[..|events| - 1], now, parse) +
        (if IsUpcoming(last, now, parse) then [EntryFor(last, now, parse)] else [])
  }

  /** The entries appended to the past container, in array order. */
  function PastEntries(events: seq<LegacyEvent>, now: Instant, parse: Parse): seq<Entry> {
    if events == [] then []
    else
      var last := events[|events| - 1];
      PastEntries(events[..|events| - 1], now, parse) +
        (if IsUpcoming(last, now, parse) then [] else [EntryFor(last, now, parse)])
  }

  /** One firing of an entry's interval (scripts.js:70-80), `nowTime` being `new Date().getTime()`. */
  function Step(entry: Entry, nowTime: Instant): (r: Entry)
    requires entry.countdown.Some?
    ensures r.title == entry.title && r.description == entry.description
    ensures var distance := entry.countdown.value - nowTime;
            && (distance <= 0 ==> r.timer == STARTED && r.countdown.None?)
            && (distance > 0 ==>
                  && r.countdown == entry.countdown
                  && exists t :: InRange(t) && Recompose(t) <= distance < Recompose(t) + MS_PER_SECOND
                                 && r.timer == "Starts in: " + Text(t))
  {
    var distance := entry.countdown.value - nowTime;
    if distance <= 0 then entry.(timer := STARTED, countdown := None)
    else entry.(timer := "Starts in: " + FormatTime(distance))
  }

  class LegacyPage {
    var upcoming: seq<Entry>  // `#upcoming-events`
    var past: seq<Entry>      // `#past-events`

    constructor ()
      ensures upcoming == [] && past == []
    {
      upcoming, past := [], [];
    }

    /** `renderEvents` (scripts.js:33-93): clear both containers, then append each event to one
        of them, in array order. */
    method RenderEvents(events: seq<LegacyEvent>, now: Instant, parse: Parse)
      modifies this
      ensures upcoming == UpcomingEntries(events, now, parse)
      ensures past == PastEntries(events, now, parse)
    {
      upcoming := [];
      past := [];
      for i := 0 to |events|
        invariant upcoming == UpcomingEntries(events[..i], now, parse)
        invariant past == PastEntries(events[..i], now, parse)
      {
        assert events[..i + 1][..i] == events[..i];
        var event := events[i];
        var entry := EntryFor(event, now, parse);
        if IsUpcoming(event, now, parse) {
          upcoming := upcoming + [entry];
        } else {
          past := past + [entry];
        }
      }
      assert events[..|events|] == events;
    }

    /** The interval of upcoming entry `i` fires; it only fires while it has not cleared itself. */
    method CountdownTick(i: nat, nowTime: Instant)
      requires i < |upcoming| && upcoming[i].countdown.Some?
      modifies this
      ensures upcoming == old(upcoming)[i := Step(old(upcoming)[i], nowTime)]
      ensures past == old(past)
    {
      upcoming := upcoming[i := Step(upcoming[i], nowTime)];
    }
  }

  /** Order: the containers of a concatenation are the concatenations of the containers. */
  lemma {:induction false} EntriesAppend(a: seq<LegacyEvent>, b: seq<LegacyEvent>, now: Instant, parse: Parse)
    ensures UpcomingEntries(a + b, now, parse) == UpcomingEntries(a, now, parse) + UpcomingEntries(b, now, parse)
    ensures PastEntries(a + b, now, parse) == PastEntries(a, now, parse) + PastEntries(b, now, parse)
    decreases |b|
  {
    if b == [] {
      assert a + b == a;
    } else {
      var b' := b[..|b| - 1];
      assert (a + b)[..|a + b| - 1] == a + b';
      assert (a + b)[|a + b| - 1] == b[|b| - 1];
      EntriesAppend(a, b', now, parse);
    }
  }

  /** Each event is appended to exactly one container: to the upcoming one exactly when its
      date parses to an instant strictly after `now` (a date equal to `now` is past). */
  lemma OneContainer(e: LegacyEvent, now: Instant, parse: Parse)
    ensures UpcomingEntries([e], now, parse) == (if IsUpcoming(e, now, parse) then [EntryFor(e, now, parse)] else [])
    ensures PastEntries([e], now, parse) == (if IsUpcoming(e, now, parse) then [] else [EntryFor(e, now, parse)])
    ensures parse(e.date) == Some(now) ==> PastEntries([e], now, parse) == [EntryFor(e, now, parse)]
    ensures !IsUpcoming(e, now, parse) ==> EntryFor(e, now, parse).timer == PASSED
  {
    assert [e][..0] == [];
  }

  /** Together the containers hold one entry per event. */
  lemma {:induction false} EntriesCover(events: seq<LegacyEvent>, now: Instant, parse: Parse)
    ensures |UpcomingEntries(events, now, parse)| + |PastEntries(events, now, parse)| == |events|
  {
    if events != [] {
      EntriesCover(events[..|events| - 1], now, parse);
    }
  }

  /** A tick keeps the interval running exactly while the start lies ahead, and shows the
      "started" text exactly when it stops. */
  lemma StepStops(entry: Entry, nowTime: Instant)
    requires entry.countdown.Some?
    ensures Step(entry, nowTime).countdown.Some? <==> nowTime < entry.countdown.value
    ensures Step(entry, nowTime).timer == STARTED <==> entry.countdown.value <= nowTime
  {
    var r := Step(entry, nowTime);
    if nowTime < entry.countdown.value {
      assert r.timer[0] == 'S' && STARTED[0] == 'E';
    }
  }

  /** The built-in list on a day between the two events: the Health Camp sits in the past
      container and the Agricultural Expo counts down in the upcoming one. */
  lemma BetweenTheTwo(now: Instant, parse: Parse)
    requires !IsUpcoming(EVENTS[0], now, parse) && IsUpcoming(EVENTS[1], now, parse)
    ensures UpcomingEntries(EVENTS, now, parse) == [EntryFor(EVENTS[1], now, parse)]
    ensures PastEntries(EVENTS, now, parse) == [EntryFor(EVENTS[0], now, parse)]
    ensures UpcomingEntries(EVENTS, now, parse)[0].title == "Agricultural Expo"
    ensures UpcomingEntries(EVENTS, now, parse)[0].timer == LOADING
    ensures PastEntries(EVENTS, now, parse)[0].title == "Health Camp"
    ensures PastEntries(EVENTS, now, parse)[0].timer == PASSED
  {
    assert EVENTS == [EVENTS[0]] + [EVENTS[1]];
    EntriesAppend([EVENTS[0]], [EVENTS[1]], now, parse);
    OneContainer(EVENTS[0], now, parse);
    OneContainer(EVENTS[1], now, parse);
  }
}
