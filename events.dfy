/**
 * The event record and its normalisation (js/scripts.js:11, 25-29, 62-63, 118-122):
 * the parsed start, the derived end and the status of an event at a given instant.
 */
module Events {
  import opened Wrappers
  import opened Status

  /** `new Date(s)` followed by the `isNaN` test of `parseDateSafe`: locale- and host-dependent,
      so it is a parameter of the model. */
  type Parse = string -> Option<Instant>

  const DEFAULT_DURATION_HOURS: int := 8
  const DEFAULT_DURATION_MS: int := DEFAULT_DURATION_HOURS * 60 * 60 * 1000

  /** One entry of the `events` array. Optional fields are `None` when absent. */
  datatype Event = Event(
    name: Option<string>,
    start: string,
    end: Option<string>,
    location: Option<string>,
    description: Option<string>)

  /** A string field is falsy in JavaScript when it is absent or empty. */
  predicate Falsy(f: Option<string>) {
    f == None || f == Some("")
  }

  /** `evt.end ? parseDateSafe(evt.end) : start + DEFAULT_DURATION_HOURS` (js/scripts.js:120-121).
      `None` stands for the `null` an unparsable end yields. */
  function EndOf(e: Event, start: Instant, parse: Parse): (r: Option<Instant>)
    ensures Falsy(e.end) ==> r.Some? && r.value - start == 8 * 3600000
    ensures !Falsy(e.end) ==> r == parse(e.end.value)
  {
    if Falsy(e.end) then Some(start + DEFAULT_DURATION_MS) else parse(e.end.value)
  }

  /** The end is present but does not parse: the source carries `null` on from here. */
  predicate BadEnd(e: Event, parse: Parse) {
    !Falsy(e.end) && parse(e.end.value).None?
  }

  /** An event takes part in a render pass only when its start parses (js/scripts.js:118-119). */
  predicate Kept(e: Event, parse: Parse) {
    parse(e.start).Some?
  }

  /** The end as `getStatus` sees it: JavaScript compares a `null` end as 0. */
  function StatusEnd(e: Event, start: Instant, parse: Parse): Instant {
    match EndOf(e, start, parse)
    case Some(t) => t
    case None => 0
  }

  /** The status an event is classified with at `now` (js/scripts.js:122). */
  function StatusOf(e: Event, now: Instant, parse: Parse): Status
    requires Kept(e, parse)
  {
    var start := parse(e.start).value;
    GetStatus(now, start, StatusEnd(e, start, parse))
  }

  /** An event whose `end` does not parse is compared against 0: it is LIVE only for a `now`
      before the epoch, and PAST from its start on otherwise. */
  lemma NullEndStatus(e: Event, now: Instant, parse: Parse)
    requires Kept(e, parse) && BadEnd(e, parse)
    ensures var start := parse(e.start).value;
            && (StatusOf(e, now, parse) == Upcoming <==> now < start)
            && (StatusOf(e, now, parse) == Live <==> start <= now < 0)
            && (StatusOf(e, now, parse) == Past <==> start <= now && 0 <= now)
  {
    assert EndOf(e, parse(e.start).value, parse).None?;
  }

  /** An event without an end is LIVE for exactly eight hours from its start. */
  lemma DefaultWindow(e: Event, now: Instant, parse: Parse)
    requires Kept(e, parse) && Falsy(e.end)
    ensures StatusOf(e, now, parse) == Live <==>
              parse(e.start).value <= now < parse(e.start).value + 28800000
  {
  }

  /** Sort key of `byStartAsc` (js/scripts.js:129); every event in a bucket has a parsable start. */
  function StartKey(e: Event, parse: Parse): int {
    match parse(e.start)
    case Some(t) => t
    case None => 0
  }

  /** Sort key of `byEndDesc` (js/scripts.js:130-133), the derived end. For an end that does not
      parse the source compares NaN; the model uses 0 there. */
  function EndKey(e: Event, parse: Parse): int {
    StatusEnd(e, StartKey(e, parse), parse)
  }
}
