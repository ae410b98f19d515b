/** The time/status classifier `getStatus` (js/scripts.js:53-57). */
module Status {

  /** Instants are integer milliseconds since the epoch (`Date.prototype.getTime`). */
  type Instant = int

  datatype Status = Upcoming | Live | Past

  /** The half-open window [start, end): before it UPCOMING, inside it LIVE, otherwise PAST. */
  function GetStatus(now: Instant, start: Instant, end: Instant): (st: Status)
    ensures st == Upcoming <==> now < start
    ensures st == Live <==> start <= now < end
    ensures st == Past <==> start <= now && end <= now
  {
    if now < start then Upcoming
    else if now >= start && now < end then Live
    else Past
  }

  /** The lower bound is inclusive and the upper bound exclusive. */
  lemma Boundaries(start: Instant, end: Instant)
    ensures start < end ==> GetStatus(start, start, end) == Live
    ensures start <= end ==> GetStatus(end, start, end) == Past
  {
  }

  /** An inverted window (end < start) is never LIVE: the event is PAST as soon as it starts. */
  lemma InvertedWindow(now: Instant, start: Instant, end: Instant)
    requires end < start
    ensures GetStatus(now, start, end) == (if now < start then Upcoming else Past)
  {
  }

  /** With a fixed window, the status only moves forward as time passes. */
  predicate NotLater(a: Status, b: Status) {
    a == Upcoming || a == b || b == Past
  }

  lemma Monotone(now: Instant, now': Instant, start: Instant, end: Instant)
    requires now <= now'
    ensures NotLater(GetStatus(now, start, end), GetStatus(now', start, end))
  {
  }
}
