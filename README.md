# SUCSA events page: lifecycle classifier and live renderer in Dafny

This project models the event logic of the SUCSA community web site. The site's events page
loads `data/events.json` and sorts each event into one of three states: UPCOMING, LIVE or PAST.
It fills two page regions, `#upcoming-events` and `#past-events`, and redraws them once a second
so that countdowns tick and events move from one state to the next. If the data cannot be
loaded, the page shows a built-in list of two events instead. The model covers `js/scripts.js`
and the older page script `scripts.js`.

Times are integers in milliseconds. Date parsing (`new Date(s)` with its `isNaN` test) is a
parameter `parse: string -> Option<int>`. Each render pass takes a single `now`.

| module (file) | what it models |
|---|---|
| `Countdown` (countdown.dfy) | `formatCountdown`. It uses JavaScript's `Math.floor` and its sign-keeping `%`, written out explicitly. |
| `Status` (status.dfy) | `getStatus`, the half-open window `[start, end)` |
| `Events` (events.dfy) | the event record. An event takes part in a pass only when its start parses. The end is derived: the parsed `end` field, or start + 8 h when that field is absent or empty. |
| `Cards` (cards.dfy) | the content of `buildEventCard`, including the cases where it throws or returns `null` |
| `Buckets` (buckets.dfy) | the `forEach` pass that pushes each event onto the upcoming, live or past list |
| `StableSort` (sorting.dfy) | the stable `Array.prototype.sort` under `byStartAsc` and `byEndDesc` |
| `Render`, `RenderFacts` (render.dfy, render_facts.dfy) | `renderAll` as a class `Page` with one field per region, plus what one pass promises |
| `Loader` (loader.dfy) | `loadEvents` as a class holding `EVENTS_CACHE`, `RENDER_TIMER` and the host's running intervals |
| `Legacy` (legacy.dfy) | scripts.js: `formatTime`, the two-way split in `renderEvents` and one tick of an event's countdown |

Several behaviours of the source are modelled exactly as written:

- An event whose `end` is present but does not parse gets a `null` end.
  - `getStatus` then compares against `null`, which JavaScript treats as 0, and the model does the same.
  - `formatDateTime(null)` then throws. A pass that reaches such a card ends with `ok == false`.
  - At that point the region being filled has already been cleared and nothing has been appended to it.
  - During loading, this throw makes `loadEvents` discard the fetched data and show the fallback instead.
- `buildEventCard` reads `parseDateSafe(evt.start).getTime()` before it checks whether `start` is valid. So it throws, rather than returning `null`, for an invalid start with no end. `renderAll` never calls it with an invalid start.
- The comment at js/scripts.js:11 says the default duration is used if `end` is missing. An `end` that is present but unparsable does not get it: it becomes `null` (js/scripts.js:120-121), and formatting it at js/scripts.js:76 throws. The model follows the code.
- `formatTime` in scripts.js has no clamp. For negative input the day count is at most -1 and each other field lies between minus its unit count and 0: -1 ms gives `-1d -1h -1m -1s`, -60000 ms gives `-1d -1h -1m 0s`.
- In scripts.js a date equal to `now`, or a date that does not parse, puts the event in the past container.

## Model

| member | source | states |
|---|---|---|
| `Countdown.FloorDiv` | js/scripts.js:45 | `Math.floor(a / b)` for b > 0 is the q with q·b ≤ a < q·b + b |
| `Countdown.JsRem` | js/scripts.js:46 | JavaScript's `%` keeps the dividend's sign: in [0, b) for a ≥ 0, in (−b, 0] for a < 0, and a − r is a multiple of b |
| `Countdown.DecomposeSound` | js/scripts.js:45-48 | for ms ≥ 0 the four floor/remainder fields are in range and account for ms to the second |
| `Countdown.Decompose` | js/scripts.js:45-48 | for ms ≥ 0: days ≥ 0, hours < 24, minutes < 60, seconds < 60, and d·86400000 + h·3600000 + m·60000 + s·1000 ≤ ms < that sum + 1000 |
| `Countdown.DecomposeUnique` | js/scripts.js:45-48 | the decomposition is the only in-range one that accounts for ms to the second |
| `Countdown.FormatCountdown` | js/scripts.js:43-50 | ms ≤ 0 gives exactly "0d 0h 0m 0s"; otherwise the text of an in-range decomposition accounting for ms to the second |
| `Countdown.Text` | js/scripts.js:49 | definition of the `${days}d ${hours}h ${minutes}m ${seconds}s` template; its values are stated by `FormatCountdownExample`, `Cards.HourAhead` and `Legacy.FormatTimeNegative` |
| `Countdown.IntToString` | js/scripts.js:49 | a negative number is "-" followed by digits spelling its magnitude; a non-negative one is digits spelling it; no leading zero, and 0 is exactly "0" |
| `Countdown.DigitsValue` | js/scripts.js:49 | definition of the number a digit string spells; stated by `NatToStringValue` and `IntToString` |
| `Countdown.NatToStringValue` | js/scripts.js:49 | the decimal text of n spells n, with no leading zero, and 0 is exactly "0" |
| `Countdown.FormatCountdownExample` | js/scripts.js:43-50 | 90061000 ms is "1d 1h 1m 1s" |
| `Status.GetStatus` | js/scripts.js:53-57 | UPCOMING iff now < start; LIVE iff start ≤ now < end; PAST iff start ≤ now and end ≤ now |
| `Status.Boundaries` | js/scripts.js:54-55 | now == start is LIVE (non-empty window); now == end is PAST |
| `Status.InvertedWindow` | js/scripts.js:53-57 | with end < start an event is never LIVE: PAST as soon as now ≥ start |
| `Status.Monotone` | js/scripts.js:53-57 | for a fixed window, the status never moves backwards as now grows |
| `Events.EndOf` | js/scripts.js:120-121 | an absent or empty `end` gives exactly start + 8·3600000 ms; otherwise the end is whatever `end` parses to |
| `Events.Kept` | js/scripts.js:118-119 | definition of `if (!start) return;`: an event is kept iff its start parses; stated by `Buckets.BucketMember` and `Buckets.BucketsCover` |
| `Events.StatusEnd` | js/scripts.js:120-122 | definition of the end `getStatus` compares against, 0 for a `null` end as JavaScript converts it; stated by `NullEndStatus` |
| `Events.NullEndStatus` | js/scripts.js:53-57 | an event whose end does not parse is UPCOMING iff now < start, LIVE iff start ≤ now < 0, PAST iff start ≤ now and now ≥ 0 |
| `Events.StatusOf` | js/scripts.js:118-122 | definition: `getStatus` on the parsed start and the derived end, with a `null` end read as 0; its properties are in `Status.GetStatus`, `Events.DefaultWindow` and `Cards.CardBadge` |
| `Events.DefaultWindow` | js/scripts.js:118-122 | an event without an end is LIVE exactly in [start, start + 8 h) |
| `Events.StartKey` | js/scripts.js:129 | definition of the `byStartAsc` key, the parsed start; stated by `RenderFacts.ListsFacts` and `RenderFacts.ListsStable` |
| `Events.EndKey` | js/scripts.js:130-133 | definition of the `byEndDesc` key, the derived end, with 0 where the source compares NaN; stated by `RenderFacts.ListsFacts`, `RenderFacts.PastGrid` and `RenderFacts.ListsStable` |
| `Cards.BadgeLabel` | js/scripts.js:72 | the badge is "Upcoming", "Live Now" or "Past" exactly for the matching status |
| `Cards.LocationLine` | js/scripts.js:77 | the location line is omitted exactly when the location is absent or empty |
| `Cards.BuildEventCard` | js/scripts.js:60-97 | throws exactly for an invalid start with no end, or a valid start with an unparsable end; returns `null` exactly for an invalid start with an end; otherwise the card's status and time range come from the parsed start and the derived end |
| `Cards.CardBadge` | js/scripts.js:67-72 | a rendered card's badge names the window that now falls in |
| `Cards.StatusLine` | js/scripts.js:80-88 | definition of the status line for a status; stated by `StatusLineOf` and `CardStatusLine` |
| `Cards.LineText` | js/scripts.js:80-88 | definition of the line's text, "Starts in: " + `formatCountdown` for an upcoming card; stated by `StatusLineOf` |
| `Cards.CardStatusLine` | js/scripts.js:80-88 | "Event is live!" iff LIVE; "This event has passed." iff PAST; an upcoming card reads "Starts in: " + an in-range countdown of start − now to the second |
| `Cards.StatusLineOf` | js/scripts.js:80-88 | the same three facts for the status-line function alone |
| `Cards.CardText` | js/scripts.js:71-78 | the title is the name; the description defaults to ""; the location line is present iff the location is non-empty |
| `Cards.HourAhead` | js/scripts.js:60-97 | an event one hour ahead with no end gives the badge "Upcoming" and "Starts in: 0d 1h 0m 0s" |
| `Cards.HalfwayThrough` | js/scripts.js:60-97 | an event running from now − 30 min to now + 30 min gives "Live Now" and "Event is live!" |
| `Buckets.Bucket` | js/scripts.js:117-126 | definition of one list the loop pushes to; stated by `BucketMember`, `BucketAppend`, `BucketsCover` and `Partition` |
| `Buckets.Partition` | js/scripts.js:113-126 | the three lists pushed by the loop are exactly the three buckets of the input |
| `Buckets.BucketMember` | js/scripts.js:117-126 | an event is in a bucket iff it is in the input, its start parses and it has that bucket's status |
| `Buckets.BucketAppend` | js/scripts.js:117-126 | the bucket of a + b is the bucket of a followed by the bucket of b, so input order is kept |
| `Buckets.BucketsCover` | js/scripts.js:117-126 | the three buckets together are exactly the events with a parsable start, with multiplicities |
| `StableSort.SortBy` | js/scripts.js:136-138 | the result is sorted by the key and is a permutation of the input |
| `StableSort.Insert` | js/scripts.js:136-138 | inserting into a sorted list keeps it sorted and adds exactly that one element; no key in the result is below both key(x) and the old first key |
| `StableSort.SortStable` | js/scripts.js:136-138 | for every key value, the elements with that key keep their input order |
| `Render.ByStart` | js/scripts.js:129 | definition of `byStartAsc` as the key `StartKey`; stated by `RenderFacts.ListsFacts` (upcoming and live non-decreasing by start) |
| `Render.ByEndDesc` | js/scripts.js:130-134 | definition of `byEndDesc` as the negated `EndKey`; stated by `RenderFacts.ListsFacts` (past non-increasing by end) |
| `Render.Cleared` | js/scripts.js:110-111 | definition of `innerHTML = ""` on a present region; stated by `RenderFacts.RenderFails` (a failed pass leaves the past region cleared) |
| `Render.SortedLists` | js/scripts.js:113-138 | definition of the three sorted lists; stated by `RenderFacts.ListsFacts`, `RenderFacts.ListsStable` and `RenderFacts.ListsMember` |
| `Render.Append` | js/scripts.js:145-148 | definition of one `appendChild` of a built card, or the throw passed on; stated through `BuildAll` |
| `Render.BuildAll` | js/scripts.js:144-149 | definition of `renderList` on a list; stated by `RenderList`, `BuildAllThrew`, `RenderFacts.BuildAllCards`, `RenderFacts.BuildAllAt` and `RenderFacts.BuildAllThrows` |
| `Render.UpcomingNodes` | js/scripts.js:141-160 | definition of the upcoming region's children; stated by `RenderFacts.UpcomingGrid` and `RenderFacts.UpcomingThrows` |
| `Render.PastNodes` | js/scripts.js:163-174 | definition of the past region's children; stated by `RenderFacts.PastGrid` and `RenderFacts.PastThrows` |
| `Render.RenderPass` | js/scripts.js:100-175 | definition of one `renderAll` pass: nothing when both regions are missing, otherwise `Fill` with the sorted lists; stated by `Page.RenderAll` and the `RenderFacts` lemmas |
| `Render.Fill` | js/scripts.js:109-174 | definition of clearing and filling the present regions, the past one only if the upcoming one did not throw; stated by `RenderFacts.FillPresence`, `RenderFacts.UpcomingRegion`, `RenderFacts.PastRegion` and `RenderFacts.RenderFails` |
| `Render.RenderList` | js/scripts.js:144-149 | appends the built cards in list order; reports a throw exactly when building some card throws |
| `Render.BuildAllThrew` | js/scripts.js:145-148 | one card that throws makes the whole list throw |
| `Render.UpcomingChildren` | js/scripts.js:151-159 | the children equal `UpcomingNodes`: one grid of the live cards then the upcoming cards, the message "No upcoming events at the moment." when both lists are empty, or a throw |
| `Render.PastChildren` | js/scripts.js:164-173 | the children equal `PastNodes`: one grid of the past cards, the message "No past events yet." when the list is empty, or a throw |
| `Render.Page.RenderAll` | js/scripts.js:100-175 | the regions after the pass, and whether it completed, are exactly `RenderPass` of the old regions, the events and now |
| `RenderFacts.ListsFacts` | js/scripts.js:128-138 | each sorted list is a permutation of its bucket; upcoming and live are non-decreasing by start; past is non-increasing by end |
| `RenderFacts.SortedBucket` | js/scripts.js:117-138 | one sorted list is a permutation of its bucket, sorted by its key, and holds only kept events of that status |
| `RenderFacts.ListsStable` | js/scripts.js:136-138 | events with equal sort keys keep their input order in each list |
| `RenderFacts.ListsMember` | js/scripts.js:117-138 | an event is in a sorted list iff it is in the input with that list's status |
| `RenderFacts.BuildAllCards` | js/scripts.js:145-148 | when no card throws, there is one card per event, in list order |
| `RenderFacts.BuildAllAt` | js/scripts.js:145-148 | the card at index i is the card built for event i |
| `RenderFacts.BuildAllThrows` | js/scripts.js:76 | building cards for kept events throws iff one of them has an end that does not parse |
| `RenderFacts.UpcomingGrid` | js/scripts.js:151-159 | the one child is the message iff both lists are empty and a grid otherwise; the grid's first \|live\| cards are exactly the cards built from the live list and the rest exactly those from the upcoming list, each group LIVE or UPCOMING and ordered by start |
| `RenderFacts.GridCardAt` | js/scripts.js:151-153 | card i of the grid has status LIVE before index \|live\| and UPCOMING from there on, and carries its event's start |
| `RenderFacts.CardAt` | js/scripts.js:145-148 | card i built from one bucket's list has that bucket's status and its event's start |
| `RenderFacts.UpcomingRegion` | js/scripts.js:141-160 | after a completed pass the upcoming region is shown and holds exactly "No upcoming events at the moment." iff both buckets are empty, otherwise one grid of exactly the cards built from the sorted live list then the sorted upcoming list, each a permutation of its bucket |
| `RenderFacts.PastGrid` | js/scripts.js:164-173 | the one child is the message iff the past list is empty and a grid otherwise; the grid holds exactly the cards built from the list, all PAST, latest end first |
| `RenderFacts.PastRegion` | js/scripts.js:163-174 | after a completed pass the past region is shown and holds exactly "No past events yet." iff the past bucket is empty, otherwise one grid of exactly the cards built from the sorted past list, a permutation of the bucket, latest end first |
| `RenderFacts.FillPresence` | js/scripts.js:110-111 | filling the regions keeps a missing region missing and a present one present |
| `RenderFacts.AbsentRegions` | js/scripts.js:101-111 | a missing region stays missing, and with neither region present the pass does nothing and completes |
| `RenderFacts.UpcomingThrows` | js/scripts.js:141-160 | the upcoming region throws iff a kept non-PAST event has an unparsable end |
| `RenderFacts.PastThrows` | js/scripts.js:163-174 | the past region throws iff a kept PAST event has an unparsable end |
| `RenderFacts.RenderFails` | js/scripts.js:120-122 | a pass fails iff some kept event with an unparsable end belongs to a region the page has; a failed pass leaves the past region cleared |
| `RenderFacts.RenderIdempotent` | js/scripts.js:99-175 | a second pass with the same events and the same now changes nothing |
| `RenderFacts.ShapeOnly` | js/scripts.js:109-111 | a pass depends only on which regions exist, not on their old content |
| `Loader.FallbackRenders` | js/scripts.js:198-216 | if the four fallback timestamps parse, rendering the fallback completes |
| `Loader.Loader.constructor` | js/scripts.js:178-179 | starts with no cache, no timer and no running interval |
| `Loader.Loader.Rearm` | js/scripts.js:191-194 | the old interval, if any, is cleared and exactly one new interval runs and is stored |
| `Loader.Loader.LoadCompleted` | js/scripts.js:181-220 | the fetched events are cached and shown iff the response was valid and rendering them completed; otherwise the fallback is cached and the page shows the fallback's render; the timer is re-armed, leaving one running interval, unless rendering the fallback throws too |
| `Loader.Loader.ShowLoaded` | js/scripts.js:187-194 | caches the fetched events and renders them; re-arms the timer only if the render completed |
| `Loader.Loader.RecoverWithFallback` | js/scripts.js:195-219 | caches and renders the two-event fallback; re-arms the timer only if that render completes |
| `Loader.Loader.Tick` | js/scripts.js:192-193 | one firing renders the cached dataset and changes neither cache nor timer |
| `Legacy.FormatTime` | scripts.js:21-28 | for ms ≥ 0 the text of an in-range decomposition accounting for ms to the second |
| `Legacy.NegativeFields` | scripts.js:22-25 | for ms < 0 the days are ≤ -1 and hours, minutes and seconds lie in [-24, 0], [-60, 0] and [-60, 0] |
| `Legacy.FormatTimeNegative` | scripts.js:21-28 | with no clamp, -1 ms gives "-1d -1h -1m -1s" and -60000 ms gives "-1d -1h -1m 0s" |
| `Legacy.Step` | scripts.js:70-80 | distance ≤ 0 gives "Event has started!" and clears the interval; otherwise "Starts in: " + the in-range decomposition of the distance, and the interval keeps running |
| `Legacy.StepStops` | scripts.js:74-79 | the interval keeps running iff the start is still ahead; the "started" text appears iff it stops |
| `Legacy.IsUpcoming` | scripts.js:44-59 | definition of `eventDate > now` with an unparsable date never ahead; stated by `OneContainer` |
| `Legacy.EntryFor` | scripts.js:47-88 | definition of the entry for one event; stated by `OneContainer` |
| `Legacy.UpcomingEntries` | scripts.js:43-92 | definition of the upcoming container's entries; stated by `EntriesAppend`, `EntriesCover` and `RenderEvents` |
| `Legacy.PastEntries` | scripts.js:43-92 | definition of the past container's entries; stated by `EntriesAppend`, `EntriesCover` and `RenderEvents` |
| `Legacy.LegacyPage.RenderEvents` | scripts.js:33-93 | both containers are cleared, then hold exactly the upcoming entries and the past entries, in array order |
| `Legacy.LegacyPage.CountdownTick` | scripts.js:70-80 | one tick changes only that entry, by one step |
| `Legacy.EntriesAppend` | scripts.js:43-92 | each container's entries for a + b are those for a followed by those for b |
| `Legacy.OneContainer` | scripts.js:59-91 | each event goes to exactly one container: upcoming iff its date parses to an instant strictly after now; date == now goes to past, with "This event has passed." |
| `Legacy.EntriesCover` | scripts.js:37-92 | the two containers together hold one entry per event |
| `Legacy.BetweenTheTwo` | scripts.js:4-92 | on a day after the Health Camp and before the Agricultural Expo, the past container holds just the Health Camp with "This event has passed." and the upcoming one just the Agricultural Expo with "Loading countdown..." |

## Left out

- The DOM: `$`, `createEl`, `innerHTML` and `appendChild` (js/scripts.js:14-23). A region is a sequence of nodes, each a grid of card records or an empty-state message. CSS class names are kept only as the card's status.
- `fetch`, `res.json()` and `async`/`await` (js/scripts.js:183-186). The settled request is an input `Response`: loaded, not ok, invalid shape, or failed.
- The timing of `setInterval` and `clearInterval`. The model keeps the stored handle and the set of running intervals; a firing is a call to `Tick`. In scripts.js, the independent per-event intervals are not interleaved; one firing is `CountdownTick`.
- `new Date(string)` and `isNaN` (js/scripts.js:25-29). These are the parameter `parse`.
- `formatDateTime` (js/scripts.js:31-41), which depends on the locale. A card keeps the two instants it would format.
- `Cards.BuildEventCard`: the card's status line holds the remaining milliseconds, not the finished string. `LineText` spells it out as "Starts in: " + formatCountdown(ms).
- Several `now` values per pass (js/scripts.js:107, 146, 166). The model takes one `now` per pass. With one `now`, an upcoming card always has start − now > 0, so the clamp in `formatCountdown` never applies to a card; in the last second before the start the decomposition itself reads `0d 0h 0m 0s`.
- `byEndDesc` for a PAST event with an unparsable end (js/scripts.js:130-133). The source compares NaN, so the order depends on the engine. The model sorts such an event with end key 0. The output does not depend on this: if the past region exists, building that card throws and the region stays empty; if it does not exist, the list is never rendered.
- Event fields that are neither strings nor absent (numbers, objects, `null` dates in the JSON). Every optional field is a string or absent.
- `events` entries that are not objects. A `null` or `undefined` entry throws at js/scripts.js:118 whenever a region exists, so during loading the fetched data is discarded for the fallback (js/scripts.js:188, 195-216). A number or string entry has no `start` and is dropped like an unparsable start. The model's events are records, so `RenderFacts.RenderFails` and the failure bullets above speak only of records.
- `console.error` and the `DOMContentLoaded` wiring (js/scripts.js:196, 223; scripts.js:98).
- `Legacy.LegacyPage.RenderEvents`: a missing container (`getElementById` returning `null`, which would throw) is not modelled. Both containers are taken to exist.
