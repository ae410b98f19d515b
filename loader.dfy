/**
 * The loader and refresh scheduler `loadEvents` (js/scripts.js:178-220): the two globals
 * `EVENTS_CACHE` and `RENDER_TIMER` become the fields of one object, and the host's set of
 * running intervals is kept beside them so that "at most one timer" can be stated.
 */
module Loader {
  import opened Wrappers
  import opened Status
  import opened Events
  import opened Render
  import opened RenderFacts

  /** How `fetch` and `res.json()` ended (js/scripts.js:183-186). */
  datatype Response =
    | Loaded(events: seq<Event>)  // `res.ok` and `json.events` is an array
    | NotOk                       // `!res.ok`
    | InvalidShape                // `!json` or `json.events` is not an array
    | Failed                      // the network request or the JSON parse threw

  /** The built-in dataset used whenever loading fails (js/scripts.js:198-215). */
  const FALLBACK: seq<Event> := [
    Event(Some("Health Camp"), "2025-11-15T09:00:00", Some("2025-11-15T17:00:00"),
          Some("Seme Sub-County Hospital"),
          Some("A health outreach program with Red Cross, Aga Khan, and other partners.")),
    Event(Some("Agricultural Expo"), "2025-12-02T10:00:00", Some("2025-12-02T16:00:00"),
          Some("Seme Resource Centre Grounds"),
          Some("An expo showcasing modern agricultural practices and innovations."))
  ]

  /** How a load ended: the fetched events are shown, the fallback is shown, or rendering the
      fallback threw as well and the returned promise rejects. */
  datatype LoadResult = Fresh | UsedFallback | Rejected

  class Loader {
    const page: Page
    var cache: Option<seq<Event>>  // `EVENTS_CACHE`
    var timer: Option<nat>         // `RENDER_TIMER`
    var running: set<nat>          // intervals the host keeps firing
    var nextHandle: nat            // the id the host gives the next interval

    /** Interval ids are positive, so `if (RENDER_TIMER)` tests exactly for a stored handle; the
        only running interval is the stored one, and it only exists once a dataset is cached. */
    ghost predicate Valid()
      reads this
    {
      && nextHandle >= 1
      && (forall h :: h in running ==> 1 <= h < nextHandle)
      && running == (if timer.Some? then {timer.value} else {})
      && (timer.Some? ==> cache.Some?)
    }

    constructor (page: Page)
      ensures Valid() && this.page == page
      ensures cache == None && timer == None && running == {}
    {
      this.page := page;
      cache := None;
      timer := None;
      running := {};
      nextHandle := 1;
    }

    /** `if (RENDER_TIMER) clearInterval(RENDER_TIMER); RENDER_TIMER = setInterval(...)`. */
    method Rearm()
      requires Valid() && cache.Some?
      modifies this
      ensures Valid()
      ensures timer == Some(old(nextHandle)) && running == {old(nextHandle)}
      ensures old(timer).Some? ==> old(timer).value !in running
      ensures cache == old(cache)
    {
      if timer.Some? {
        running := running - {timer.value};
      }
      var handle := nextHandle;
      nextHandle := nextHandle + 1;
      running := running + {handle};
      timer := Some(handle);
    }

    /** The rest of `loadEvents` once the request has settled, at instant `now`. */
    method LoadCompleted(response: Response, now: Instant, parse: Parse) returns (result: LoadResult)
      requires Valid()
      modifies this, page
      ensures Valid()
      ensures result == Fresh <==>
                response.Loaded? && RenderPass(old(page.upcoming), old(page.past), response.events, now, parse).ok
      ensures result == Fresh ==>
                && cache == Some(response.events)
                && var r := RenderPass(old(page.upcoming), old(page.past), response.events, now, parse);
                   page.upcoming == r.upcoming && page.past == r.past
      ensures result != Fresh ==>
                && cache == Some(FALLBACK)
                && var r := RenderPass(old(page.upcoming), old(page.past), FALLBACK, now, parse);
                   page.upcoming == r.upcoming && page.past == r.past && (result == UsedFallback <==> r.ok)
      ensures result != Rejected ==>
                && timer == Some(old(nextHandle)) && running == {old(nextHandle)}
                && (old(timer).Some? ==> old(timer).value !in running)
      ensures result == Rejected ==> timer == old(timer) && running == old(running)
    {
      if response.Loaded? {
        var ok := ShowLoaded(response.events, now, parse);
        if ok {
          return Fresh;
        }
        AbsentRegions(old(page.upcoming), old(page.past), response.events, now, parse);
      }
      ghost var shown := (page.upcoming, page.past);
      result := RecoverWithFallback(now, parse);
      ShapeOnly(shown.0, shown.1, old(page.upcoming), old(page.past), FALLBACK, now, parse);
    }

    /** The `try` block after validation: cache the fetched events, render them and, when that
        completes, re-arm the interval. */
    method ShowLoaded(events: seq<Event>, now: Instant, parse: Parse) returns (ok: bool)
      requires Valid()
      modifies this, page
      ensures Valid() && cache == Some(events)
      ensures Outcome(page.upcoming, page.past, ok) == RenderPass(old(page.upcoming), old(page.past), events, now, parse)
      ensures ok ==>
                && timer == Some(old(nextHandle)) && running == {old(nextHandle)}
                && (old(timer).Some? ==> old(timer).value !in running)
      ensures !ok ==> timer == old(timer) && running == old(running) && nextHandle == old(nextHandle)
    {
      cache := Some(events);
      ok := page.RenderAll(events, now, parse);
      if ok {
        Rearm();
      }
    }

    /** The `catch` block: cache and render the built-in dataset, then re-arm the interval. */
    method RecoverWithFallback(now: Instant, parse: Parse) returns (result: LoadResult)
      requires Valid()
      modifies this, page
      ensures Valid() && result != Fresh && cache == Some(FALLBACK)
      ensures var r := RenderPass(old(page.upcoming), old(page.past), FALLBACK, now, parse);
              page.upcoming == r.upcoming && page.past == r.past && (result == UsedFallback <==> r.ok)
      ensures result != Rejected ==>
                && timer == Some(old(nextHandle)) && running == {old(nextHandle)}
                && (old(timer).Some? ==> old(timer).value !in running)
      ensures result == Rejected ==> timer == old(timer) && running == old(running)
    {
      cache := Some(FALLBACK);
      var ok := page.RenderAll(FALLBACK, now, parse);
      if ok {
        Rearm();
        result := UsedFallback;
      } else {
        result := Rejected;
      }
    }

    /** One firing of the interval: a render pass over the cached dataset. */
    method Tick(now: Instant, parse: Parse) returns (ok: bool)
      requires Valid() && timer.Some?
      modifies page
      ensures Valid()
      ensures Outcome(page.upcoming, page.past, ok) ==
                RenderPass(old(page.upcoming), old(page.past), cache.value, now, parse)
    {
      ok := page.RenderAll(cache.value, now, parse);
    }
  }

  /** Whenever the host parses the four timestamps of the built-in dataset, rendering it
      completes, so a failed load always ends with the fallback on screen. */
  lemma FallbackRenders(u: Region, p: Region, now: Instant, parse: Parse)
    requires forall e :: e in FALLBACK ==> parse(e.start).Some? && parse(e.end.value).Some?
    ensures RenderPass(u, p, FALLBACK, now, parse).ok
  {
    RenderFails(u, p, FALLBACK, now, parse);
  }
}
