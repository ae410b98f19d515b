/**
 * The content of one event card, `buildEventCard` (js/scripts.js:60-97). The DOM nodes are
 * replaced by a record of what they show; the locale-formatted start-end range
 * (`formatDateTime`, js/scripts.js:31-41) is kept as the pair of instants it formats.
 */
module Cards {
  import opened Wrappers
  import opened Status
  import opened Events
  import opened Countdown

  datatype Card = Card(
    status: Status,            // the `status-…` class of the article
    title: string,
    badge: string,
    when: (Instant, Instant),  // `${formatDateTime(start)} – ${formatDateTime(end)}`
    location: Option<string>,  // the optional `event-where` paragraph
    description: string,
    statusLine: Line)

  /** The `event-status` paragraph: a countdown to the start, kept as the remaining milliseconds
      and spelled out by `LineText`, or a fixed sentence. */
  datatype Line = Countdown(remaining: int) | Fixed(text: string)

  /** What `buildEventCard` ends in: a thrown `TypeError`, `null`, or `{ card, status, start, end }`. */
  datatype Built = Threw | NoCard | Built(card: Card, start: Instant, end: Instant)

  const LIVE_LINE: string := "Event is live!"
  const PAST_LINE: string := "This event has passed."
  const COUNTDOWN_PREFIX: string := "Starts in: "

  function BadgeLabel(st: Status): (text: string)
    ensures text == "Upcoming" <==> st == Upcoming
    ensures text == "Live Now" <==> st == Live
    ensures text == "Past" <==> st == Past
  {
    assert "Upcoming"[0] != "Live Now"[0] && |"Past"| != |"Upcoming"| && |"Past"| != |"Live Now"|;
    match st
    case Upcoming => "Upcoming"
    case Live => "Live Now"
    case Past => "Past"
  }

  /** The `event-status` paragraph (js/scripts.js:80-88). */
  function StatusLine(st: Status, start: Instant, now: Instant): Line {
    match st
    case Upcoming => Countdown(start - now)
    case Live => Fixed(LIVE_LINE)
    case Past => Fixed(PAST_LINE)
  }

  /** The text of the paragraph: `Starts in: ${formatCountdown(ms)}` for a countdown. */
  function LineText(line: Line): string {
    match line
    case Countdown(ms) => COUNTDOWN_PREFIX + FormatCountdown(ms)
    case Fixed(text) => text
  }

  /** A falsy `location` leaves the paragraph out (js/scripts.js:77, 92). */
  function LocationLine(location: Option<string>): (r: Option<string>)
    ensures r.None? <==> Falsy(location)
    ensures r.Some? ==> r == location
  {
    if Falsy(location) then None else location
  }

  function BuildEventCard(evt: Event, now: Instant, parse: Parse): (b: Built)
    // `parseDateSafe(evt.start).getTime()` on `null` when there is no end to parse (line 63)
    ensures b == Threw <==> (!Kept(evt, parse) && Falsy(evt.end)) || (Kept(evt, parse) && BadEnd(evt, parse))
    ensures b == NoCard <==> !Kept(evt, parse) && !Falsy(evt.end)
    ensures b.Built? ==>
              && Some(b.start) == parse(evt.start)
              && Some(b.end) == EndOf(evt, b.start, parse)
              && b.card.status == StatusOf(evt, now, parse)
              && b.card.when == (b.start, b.end)
  {
    var start := parse(evt.start);
    if start.None? && Falsy(evt.end) then Threw
    else if start.None? then NoCard
    else
      var s := start.value;
      var status := StatusOf(evt, now, parse);
      match EndOf(evt, s, parse)
      case None => Threw  // `formatDateTime(null)` (line 76)
      case Some(t) =>
        var card := Card(status, evt.name.GetOr(""), BadgeLabel(status), (s, t),
                         LocationLine(evt.location), evt.description.GetOr(""),
                         StatusLine(status, s, now));
        Built(card, s, t)
  }

  /** The badge of an event that renders names the window it is in (js/scripts.js:72). */
  lemma CardBadge(evt: Event, now: Instant, parse: Parse)
    requires Kept(evt, parse) && !BadEnd(evt, parse)
    ensures BuildEventCard(evt, now, parse).Built?
    ensures var b := BuildEventCard(evt, now, parse);
            && (b.card.badge == "Upcoming" <==> now < b.start)
            && (b.card.badge == "Live Now" <==> b.start <= now < b.end)
            && (b.card.badge == "Past" <==> b.start <= now && b.end <= now)
  {
  }

  /** The status line of an event that renders (js/scripts.js:80-88): the two fixed lines mark
      LIVE and PAST cards, and an upcoming card counts down the remaining time to the second
      (with one `now` per pass start - now is positive, so the clamp never applies; under one
      second left the decomposition itself reads `0d 0h 0m 0s`). */
  lemma CardStatusLine(evt: Event, now: Instant, parse: Parse)
    requires Kept(evt, parse) && !BadEnd(evt, parse)
    ensures BuildEventCard(evt, now, parse).Built?
    ensures var b := BuildEventCard(evt, now, parse);
            && (LineText(b.card.statusLine) == LIVE_LINE <==> b.card.status == Live)
            && (LineText(b.card.statusLine) == PAST_LINE <==> b.card.status == Past)
            && (b.card.status == Upcoming ==>
                  exists t :: InRange(t) && Recompose(t) <= b.start - now < Recompose(t) + 1000
                              && LineText(b.card.statusLine) == COUNTDOWN_PREFIX + Text(t))
  {
    var b := BuildEventCard(evt, now, parse);
    StatusLineOf(b.card.status, b.start, now);
  }

  lemma StatusLineOf(st: Status, start: Instant, now: Instant)
    requires st == Upcoming ==> now < start
    ensures LineText(StatusLine(st, start, now)) == LIVE_LINE <==> st == Live
    ensures LineText(StatusLine(st, start, now)) == PAST_LINE <==> st == Past
    ensures st == Upcoming ==>
              exists t :: InRange(t) && Recompose(t) <= start - now < Recompose(t) + 1000
                          && LineText(StatusLine(st, start, now)) == COUNTDOWN_PREFIX + Text(t)
  {
    assert LIVE_LINE[0] == 'E' && PAST_LINE[0] == 'T';
    if st == Upcoming {
      var line := LineText(StatusLine(st, start, now));
      assert line == COUNTDOWN_PREFIX + FormatCountdown(start - now);
      assert line[0] == 'S';
    }
  }

  /** Title, description and location of an event that renders (js/scripts.js:71, 77-78). */
  lemma CardText(evt: Event, now: Instant, parse: Parse)
    requires Kept(evt, parse) && !BadEnd(evt, parse)
    ensures BuildEventCard(evt, now, parse).Built?
    ensures var c := BuildEventCard(evt, now, parse).card;
            && c.title == (if evt.name.Some? then evt.name.value else "")
            && c.description == (if evt.description.Some? then evt.description.value else "")
            && (c.location.Some? <==> evt.location.Some? && evt.location.value != "")
  {
  }

  /** An event an hour ahead without an end: an upcoming card counting down one hour. */
  lemma HourAhead(evt: Event, now: Instant, parse: Parse)
    requires parse(evt.start) == Some(now + 3600000) && evt.end.None?
    ensures BuildEventCard(evt, now, parse).Built?
    ensures BuildEventCard(evt, now, parse).card.badge == "Upcoming"
    ensures LineText(BuildEventCard(evt, now, parse).card.statusLine) == "Starts in: 0d 1h 0m 0s"
  {
    DecomposeUnique(3600000, Dhms(0, 1, 0, 0));
    TextOfHour();
    assert FormatCountdown(3600000) == "0d 1h 0m 0s";
    assert StatusOf(evt, now, parse) == Upcoming;
  }

  /** An event that started half an hour ago and ends in half an hour is live. */
  lemma HalfwayThrough(evt: Event, now: Instant, parse: Parse)
    requires parse(evt.start) == Some(now - 1800000)
    requires evt.end.Some? && evt.end.value != "" && parse(evt.end.value) == Some(now + 1800000)
    ensures BuildEventCard(evt, now, parse).Built?
    ensures BuildEventCard(evt, now, parse).card.badge == "Live Now"
    ensures LineText(BuildEventCard(evt, now, parse).card.statusLine) == "Event is live!"
  {
  }
}
