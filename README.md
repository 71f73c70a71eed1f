# MMM-MyCalendar in Dafny

A verified model of the two sequential cores of the MMM-MyCalendar MagicMirror² module.

**The calendar fetcher session (`calendarfetcher.js`).** One fetcher per calendar url runs a timed cycle:
- look in the shared cache for the current page and the calendar's metadata;
- if the metadata is still fresh, only reschedule;
- otherwise send an HTTPS request with `User-Agent`, `Cache-Control` and `Pragma` headers, plus an `Authorization` header that is `Bearer <pass>` or `Basic base64(user:pass)`;
- classify the response status (a failure iff the status is below 200 or at least 400);
- turn the parsed calendar components into one page of canonical events (`processEvents`), then write the page and the metadata back to the cache and reschedule.

The fetcher also supports paging forward (`loadNextPage`) and resetting to page 1 (`resetPagination`).

**The front-end module (`MMM-MyCalendar.js`)**, data side only:
- `loadCalendars` prepares every configured calendar (webcal:// becomes http://, user/pass become an auth object) and announces it to the node helper;
- `socketNotificationReceived` keeps `calendarData`, `pendingFetches` and `loaded`;
- `createEventList` builds the display list: private events filtered out, events tagged with their calendar, sorted and truncated;
- `broadcastEvents` builds the list sent to other modules;
- also modelled: the configuration lookups `hasCalendarURL` and `getCalendarProperty`, the string helpers `shorten` and `capFirst`, and `titleTransform`.

Files, one module each:
- `Seqs.dfy`: JavaScript `slice` semantics, `Array.prototype.sort` as the unique stable sort, and string-keyed objects with insertion order.
- `Text.dfy`: ASCII case mapping, `indexOf`/`includes`, and `String.prototype.replace` with a string needle.
- `Normalizer.dfy`: `processEvents` as specification functions.
- `Base64.dfy`: UTF-8 (RFC 3629) and base64 (section 4 of RFC 4648), with decoders and round trips.
- `Cache.dfy`: the cache as a map with time-to-live.
- `Fetcher.dfy`: the session as a class whose methods are proved equal to pure transition functions, with lemmas about those functions.
- `MyCalendar.dfy`: the front-end module as a class, plus pure functions and lemmas.

Time is integer epoch milliseconds. Each place the source reads the clock takes a `now`, `todayTime` or `Reference` parameter instead. The network is a boundary:
- `FetchCalendar` returns the request it would send;
- a response is delivered with `Complete` and a transport failure with `RequestFailed`;
- callbacks to the host are recorded in `notices`.

Two modelling notes:
- A single (non-recurring) event's end is `moment(event.end)` with no fallback to its start (calendarfetcher.js:117). The model takes `end` as given.
- The window test uses `<` and `>` (calendarfetcher.js:70-71), so both bounds are inclusive.

## Model

| member | source | states |
|---|---|---|
| Seqs.Slice | calendarfetcher.js:139 | `slice(start, end)` keeps only elements of the input, never more than `end - start`, and is the clamped sub-range for non-negative bounds |
| Seqs.PageRange | calendarfetcher.js:132-139 | page `p` of size `n` is exactly elements `[(p-1)n, pn)` of the list, clamped, so it has at most `n` elements |
| Seqs.PagesUpToPrefix | calendarfetcher.js:132-139 | pages 1..k laid end to end are the first `k*n` elements, so pages neither overlap nor skip |
| Seqs.SortBy | calendarfetcher.js:129 | sorting by `startDate` yields a permutation (same multiset) that is ordered by the key |
| Seqs.SortByStable | calendarfetcher.js:129 | the sort keeps elements with equal keys in their original relative order |
| Seqs.StableSortUnique | calendarfetcher.js:129 | a list is a stable sort of the input iff it equals `SortBy`, so any conforming stable `Array.prototype.sort` gives the same result |
| Seqs.SliceSorted | MMM-MyCalendar.js:386 | any slice of a sorted list is sorted, including slices with negative bounds |
| Seqs.SlicePrefix | MMM-MyCalendar.js:386 | `slice(0, n)` is a prefix, of length min(n, length) for n >= 0, and of a sorted list it keeps elements no later in key than any it drops |
| Seqs.Get | MMM-MyCalendar.js:130-131 | reading an object property finds a value iff the key is present |
| Seqs.GetStored | MMM-MyCalendar.js:130-131 | the value read is the one stored under the key, in its first entry |
| Seqs.Put | MMM-MyCalendar.js:129-136 | assigning a property makes it read back, leaves other keys unchanged, and appends a new key last (insertion order) |
| Seqs.PutUnique | MMM-MyCalendar.js:129-136 | property assignment never duplicates a key |
| Text.Lower | calendarfetcher.js:109 | `toLowerCase` preserves length |
| Text.LowerMeaning | calendarfetcher.js:109 | lower-casing removes every upper-case letter, keeps other characters, keeps each letter up to case, and is idempotent |
| Text.IndexOf | calendarfetcher.js:109 | `indexOf` returns the first occurrence of the needle, or -1 when there is none |
| Text.Includes | calendarfetcher.js:109 | `includes` holds iff the needle occurs at some index |
| Text.ReplaceFirst | MMM-MyCalendar.js:105 | `replace` with a string needle leaves a string without the needle unchanged and otherwise splices the replacement in at the first occurrence only |
| Text.ReplaceEmptyNeedle | MMM-MyCalendar.js:508 | an empty needle inserts the replacement at the front |
| Normalizer.OrElse | calendarfetcher.js:86 | `x \|\| d` on an optional string yields `x` exactly when it is a non-empty string |
| Normalizer.OrAbsent | calendarfetcher.js:93-96 | `x \|\| false` keeps `x` iff it is a non-empty string |
| Normalizer.Between | calendarfetcher.js:77-82 | the occurrences taken are at most the limit, each from the rule's stream and inside the inclusive window |
| Normalizer.BetweenLength | calendarfetcher.js:77-82 | exactly min(3, number of in-window occurrences) are taken |
| Normalizer.BetweenPrefix | calendarfetcher.js:77-82 | when every occurrence is in the window, the first three are taken in order |
| Normalizer.Within | calendarfetcher.js:77-82 | the in-window instants of the stream, exactly, in stream order |
| Normalizer.BetweenFirst | calendarfetcher.js:77-82 | the occurrences taken are the first `limit` in-window instants of the stream, in order, whatever lies outside the window |
| Normalizer.FromOccurrence | calendarfetcher.js:84-98 | an occurrence starts at its own date, keeps the master's duration, and is marked recurring |
| Normalizer.Single | calendarfetcher.js:114-125 | a single event keeps the component's start and end and is not recurring |
| Normalizer.Occurrences | calendarfetcher.js:84-99 | one event per occurrence date, in order |
| Normalizer.ContributionMeaning | calendarfetcher.js:63-126 | per component, only in-window VEVENTs contribute, at most 3 events; titles default to "No Title" and classes to "PUBLIC"; a recurring master's events all keep its duration; a single event is admitted iff it is in the window and no excluded phrase matches |
| Normalizer.RecurringCount | calendarfetcher.js:74-82 | an in-window recurring master contributes exactly min(3, in-window occurrences), since the exclusion filter does not apply to it |
| Normalizer.ValidEventsMembers | calendarfetcher.js:63-126 | an event is valid iff some component contributes it |
| Normalizer.ValidEventsInWindow | calendarfetcher.js:64-71 | every valid event starts inside the window and comes from an in-window VEVENT |
| Normalizer.SingleAdmission | calendarfetcher.js:106-125 | a non-recurring component is in the list iff it passes type, window and exclusion; otherwise removing it changes nothing |
| Normalizer.ValidEventsSkip | calendarfetcher.js:63-126 | a component that contributes nothing can be removed without changing the valid list |
| Normalizer.PageMeaning | calendarfetcher.js:128-139 | the page is elements `[(page-1)*size, page*size)` of the start-sorted valid list, sorted, at most `size` long, drawn from the valid events; `hasMoreEvents` iff total > page*size |
| Normalizer.PageSorted | calendarfetcher.js:128-139 | every page of the start-sorted valid events is itself sorted by start |
| Normalizer.TotalPages | calendarfetcher.js:240 | `Math.ceil(total / maximumEntries)`: the least page count covering the total, and not finite for a zero page size |
| Normalizer.EarlierPages | calendarfetcher.js:134-137 | every page before the last one has more events after it |
| Normalizer.PageCountCovers | calendarfetcher.js:132-139 | the `totalPages` pages together are the whole sorted list, each earlier page reports more, and the last does not |
| Base64.Utf8Char | calendarfetcher.js:179 | a character encodes to 1 to 4 bytes, ASCII as itself |
| Base64.Utf8Ascii | calendarfetcher.js:179 | an ASCII string encodes byte for byte |
| Base64.Utf8Append | calendarfetcher.js:179 | UTF-8 encoding distributes over concatenation |
| Base64.DecodeFirstChar | calendarfetcher.js:179 | decoding the bytes of one character recovers it and its length |
| Base64.Utf8RoundTrip | calendarfetcher.js:179 | decoding the UTF-8 encoding of any string returns the string |
| Base64.SextetRoundTrip | calendarfetcher.js:179-181 | every 6-bit value maps to an alphabet symbol, never the pad, and decodes back |
| Base64.SplitJoin | calendarfetcher.js:179-181 | three bytes split into four sextets and join back |
| Base64.Quad | calendarfetcher.js:179-181 | a group encodes to four symbols |
| Base64.Encode | calendarfetcher.js:179-181 | the encoding has length 4·ceil(n/3) |
| Base64.QuadDecodes | calendarfetcher.js:179-181 | full and padded groups decode to their 3, 2 or 1 bytes |
| Base64.RoundTrip | calendarfetcher.js:179-181 | decoding the base64 encoding of any byte string returns it |
| Base64.TextRoundTrip | calendarfetcher.js:179-181 | `Buffer.from(text).toString("base64")` decodes back to the text |
| Cache.Lookup | calendarfetcher.js:154-155 | `get` finds a value iff the key is stored and not expired, and returns the stored value |
| Cache.WriteThenLookup | calendarfetcher.js:225-243 | a value written with a ttl reads back for exactly ttl milliseconds; other keys are unaffected |
| Cache.Store.Get | calendarfetcher.js:154-155 | the store's `get` is `Lookup` |
| Cache.Store.Set | calendarfetcher.js:225-243 | the store's `set` writes the key with expiry now + ttl and nothing else |
| Fetcher.StatusError | calendarfetcher.js:197-205 | a response fails iff its status is below 200 or at least 400, and the error carries the code |
| Fetcher.AuthorizationHeader | calendarfetcher.js:175-182 | `bearer` method sends `Bearer <pass>`; every other method sends `Basic ` and the base64 of `user:pass` (undefined renders as "undefined") |
| Fetcher.BasicCredentialsRoundTrip | calendarfetcher.js:179-181 | for a user-id without a colon (section 2 of RFC 7617) the Basic credentials decode to `user:pass`, whose first colon splits back into both |
| Fetcher.RequestHeaders | calendarfetcher.js:169-182 | the headers carry the user agent and both no-cache values; Authorization is present iff auth is set, with the selected value; no header is duplicated |
| Fetcher.PageHit | calendarfetcher.js:151-157 | a page hit is an unexpired page record under the current page's key |
| Fetcher.MetaHit | calendarfetcher.js:150-164 | a metadata hit is an unexpired metadata record under the calendar's key |
| Fetcher.HitsFound | calendarfetcher.js:150-164 | conversely, an unexpired page record under the page key is found as the page hit, and an unexpired metadata record under the calendar's key as the metadata hit |
| Fetcher.FreshAfterCycle | calendarfetcher.js:223-243 | after the cycle's writes at t, the metadata is fresh at t' iff t' < t + reloadInterval, the page is served within that time, and totalPages is ceil(total/maximumEntries) |
| Fetcher.CycleWritten | calendarfetcher.js:223-243 | with a cache, the metadata key holds the fetch time and `totalPages` = ceil(total / maximumEntries), the page key holds the events, flag and total, both expire after reloadInterval, and every other key reads as before; without a cache nothing is written |
| Fetcher.AtMostOneTimer | calendarfetcher.js:277-282 | in a consistent state at most one timer is pending, and it is `reloadTimer` |
| Fetcher.Initial | calendarfetcher.js:36-39 | a new session is consistent, on page 1, has more events, holds no events, no timer (none set, none pending), no total and no callbacks |
| Fetcher.RequestFor | calendarfetcher.js:150-190 | the request targets the url with page and metadata keys for the page, the 10 s timeout, certificate checking unless selfSignedCert, and the selected headers |
| Fetcher.ScheduleMeaning | calendarfetcher.js:277-282 | scheduling clears the old timer, so exactly the new one is pending, and changes nothing else |
| Fetcher.FetchMeaning | calendarfetcher.js:145-190 | a page hit replaces events and hasMoreEvents and broadcasts; no request is made iff the metadata is fresh, and then exactly one timer is pending; otherwise the request is for the current page with no timer pending |
| Fetcher.FetchKeeps | calendarfetcher.js:145-190 | a fetch keeps the session consistent and on its page, and any request is the one for that page |
| Fetcher.RespondMeaning | calendarfetcher.js:193-252 | a bad status or a parse error reports the failure and keeps events, hasMoreEvents, totalEvents and the cache; success makes events the sorted page of the valid events, sets hasMoreEvents iff their number exceeds page × maximumEntries, sets totalEvents, broadcasts, and writes the cache as `CycleWritten`; exactly the new timer is pending afterwards |
| Fetcher.RespondParsed | calendarfetcher.js:211-252 | a successful parse keeps the state consistent with exactly the rescheduled timer pending and the page unchanged, makes events the current page of the start-sorted valid events (sorted, at most maximumEntries), sets hasMoreEvents iff the total exceeds page × maximumEntries, sets totalEvents, broadcasts that page, and writes the cache as `CycleWritten` |
| Fetcher.CycleThenFetch | calendarfetcher.js:150-252 | after a successful cycle at t, a fetch at t' makes no request iff t' < t + reloadInterval, and then serves the same events again |
| Fetcher.LoadNextMeaning | calendarfetcher.js:340-344 | without more events nothing changes and nothing is sent; otherwise the page advances by exactly one and any request is for it |
| Fetcher.LoadNextAdvances | calendarfetcher.js:340-344 | with more events, the session stays consistent, moves to the next page and any request it makes is for that page's cache key |
| Fetcher.ResetMeaning | calendarfetcher.js:356-360 | the page becomes 1, hasMoreEvents becomes true (unless a cached page 1 says otherwise), and any request is for page 1 |
| Fetcher.PushContribution | calendarfetcher.js:63-126 | one iteration of the forEach appends exactly that component's contribution to validEvents |
| Fetcher.Session.constructor | calendarfetcher.js:36-42 | the closure variables start as in `Initial` |
| Fetcher.Session.ProcessEvents | calendarfetcher.js:51-140 | the forEach/push loop returns the page of the valid events and sets hasMoreEvents and totalEvents, changing nothing else |
| Fetcher.Session.BroadcastEvents | calendarfetcher.js:296-299 | records one events-received callback with the current events |
| Fetcher.Session.ServeCachedPage | calendarfetcher.js:157-161 | a cached page replaces events and hasMoreEvents and is broadcast; without one nothing changes |
| Fetcher.Session.ScheduleTimer | calendarfetcher.js:277-282 | the state afterwards is `Schedule` of the state before; the session stays consistent (at most one timer pending, and it is reloadTimer) |
| Fetcher.Session.FetchCalendar | calendarfetcher.js:145-190 | state and request are `Fetch` of the previous state and the cache; the session stays consistent (at most one timer pending, and it is reloadTimer) |
| Fetcher.Session.StartFetch | calendarfetcher.js:289-291 | same as `FetchCalendar`; the session stays consistent (at most one timer pending, and it is reloadTimer) |
| Fetcher.Session.TimerFired | calendarfetcher.js:279-281 | the fired timer stops being pending, then `FetchCalendar` runs; the session stays consistent (at most one timer pending, and it is reloadTimer) |
| Fetcher.Session.Complete | calendarfetcher.js:193-252 | state and cache afterwards are `Respond` of the state and cache before; the session stays consistent (at most one timer pending, and it is reloadTimer) |
| Fetcher.Session.RequestFailed | calendarfetcher.js:255-269 | a transport error or timeout reports the error, then reschedules; the session stays consistent (at most one timer pending, and it is reloadTimer) |
| Fetcher.Session.LoadNextPage | calendarfetcher.js:340-344 | state and request are `LoadNext` of the previous state; the session stays consistent (at most one timer pending, and it is reloadTimer) |
| Fetcher.Session.ResetPagination | calendarfetcher.js:356-360 | state and request are `Reset` of the previous state; the session stays consistent (at most one timer pending, and it is reloadTimer) |
| MyCalendar.HasCalendarURL | MMM-MyCalendar.js:345-354 | true iff some configured calendar has exactly this url |
| MyCalendar.OwnPropertyKeys | MMM-MyCalendar.js:455-456 | `hasOwnProperty` holds exactly for the keys `Object.keys` lists: url always, user, pass, auth and the two limits when set, and every display property |
| MyCalendar.OwnProperty | MMM-MyCalendar.js:455-456 | `calendar[property]` for an own property: url is always found as the url; user, pass, auth and the two limits, when set, as their values; and a name that is not a field exactly when and as the display property holds it |
| MyCalendar.FirstProvider | MMM-MyCalendar.js:452-461 | the search stops at the first calendar with the url and that own property, or reports that none has both |
| MyCalendar.GetCalendarProperty | MMM-MyCalendar.js:452-461 | the own property (field or display property) of the first calendar with the url and that property; the default when there is no such calendar |
| MyCalendar.UrlPropertyFound | MMM-MyCalendar.js:452-461 | asking for `url` with a configured url returns that url, not the default |
| MyCalendar.OrDefault | MMM-MyCalendar.js:397-400 | a per-calendar number that is undefined or 0 falls back to the module's |
| MyCalendar.Prepared | MMM-MyCalendar.js:103-117 | the first "webcal://" becomes "http://"; auth becomes {user, pass} iff both are truthy, otherwise stays as configured; nothing else changes |
| MyCalendar.WebcalRewrite | MMM-MyCalendar.js:105 | a url starting with webcal:// becomes http:// followed by the same remainder |
| MyCalendar.PreparedAuthIsBasic | MMM-MyCalendar.js:112-117 | for any truthy user and pass, the auth object loadCalendars builds yields a Basic header whose credentials decode to `user:pass` |
| MyCalendar.AddPayload | MMM-MyCalendar.js:394-404 | the ADD_CALENDAR payload carries url and auth unchanged, the module's fetchInterval, and the limits with falsy values defaulted |
| MyCalendar.Payloads | MMM-MyCalendar.js:102-122 | one payload per calendar, in order |
| MyCalendar.Shorten | MMM-MyCalendar.js:472-478 | a string within the limit is unchanged; a longer one is its first n characters plus "&hellip;" (counted from the end for a negative n) |
| MyCalendar.ShortenBound | MMM-MyCalendar.js:472-478 | a shortened title is at most the limit plus the ellipsis long, keeps the first n characters, and shortening it again changes nothing |
| MyCalendar.CapFirst | MMM-MyCalendar.js:485-487 | same length; only the first character is upper-cased; the empty string stays empty |
| MyCalendar.CapFirstIdempotent | MMM-MyCalendar.js:485-487 | capitalising twice is capitalising once |
| MyCalendar.LastSlashBefore | MMM-MyCalendar.js:502 | finds the last '/' before a position, or -1 |
| MyCalendar.RegexClose | MMM-MyCalendar.js:502 | a needle is a regular-expression literal iff it matches `^/(.+)/([gim]*)$`, where `.` excludes line terminators, and the split point is returned |
| MyCalendar.RegexSplitUnique | MMM-MyCalendar.js:502 | a needle matches that pattern in at most one way |
| MyCalendar.MultilineNeedleIsPlain | MMM-MyCalendar.js:502-508 | a needle whose pattern part holds a line break is replaced as a plain string, while `/a b/gi` splits at its closing slash |
| MyCalendar.ReplaceAllAbsent | MMM-MyCalendar.js:498-510 | string needles that do not occur leave the title unchanged |
| MyCalendar.DefaultTitleReplace | MMM-MyCalendar.js:51-54 | the default table turns "Anna's birthday" into "Anna" |
| MyCalendar.Tag | MMM-MyCalendar.js:373-376 | the event gets its calendar's url, and `today` iff its start lies in [today, today + 24 h); nothing else changes |
| MyCalendar.TagCalendar | MMM-MyCalendar.js:364-379 | skipped private events are left as they were; every other event is tagged in place |
| MyCalendar.TagAll | MMM-MyCalendar.js:361-387 | calendarData after the list is built: every calendar's events tagged in place, keys and order unchanged |
| MyCalendar.CollectMembers | MMM-MyCalendar.js:366-379 | every pushed event is a visible event of that calendar, tagged |
| MyCalendar.CollectComplete | MMM-MyCalendar.js:366-379 | every visible event of the calendar is pushed, tagged with its key |
| MyCalendar.CollectAllMembers | MMM-MyCalendar.js:363-380 | every pushed event is a visible, tagged event of some calendar in calendarData |
| MyCalendar.CollectAllComplete | MMM-MyCalendar.js:363-380 | every visible event of every calendar is pushed, tagged |
| MyCalendar.CollectAllExactly | MMM-MyCalendar.js:363-380 | the pushed events are exactly the visible, tagged events of calendarData |
| MyCalendar.EventListMeaning | MMM-MyCalendar.js:361-387 | the list is sorted by start, has at most maximumEntries events, has no PRIVATE event when hidePrivate is set, and each event carries the key of the calendar it came from |
| MyCalendar.EventListComplete | MMM-MyCalendar.js:361-387 | the list holds min(maximumEntries, visible events) events; every visible event left out starts no earlier than every event kept; with room for all, every visible event is kept, as often as pushed |
| MyCalendar.Plain | MMM-MyCalendar.js:521-528 | the clones drop the url and keep every event, in order |
| MyCalendar.BroadcastMeaning | MMM-MyCalendar.js:519-535 | the broadcast holds every event of every calendar exactly once (same multiset), sorted by start, and is that list's stable sort |
| MyCalendar.Received | MMM-MyCalendar.js:129-136 | received events are stored in order, without url |
| MyCalendar.ReceiveMeaning | MMM-MyCalendar.js:125-161 | known-url events replace the calendar's entry, or extend it for page > 1, and leave the other calendars alone; unknown urls change nothing; each settling notification takes one pending fetch; loaded is set only when events bring the count to 0, and never reverts |
| MyCalendar.ReceiveAllMeaning | MMM-MyCalendar.js:125-161 | over any run of notifications, pendingFetches falls by exactly the number of settling ones; loaded never reverts; calendarData only ever holds configured urls, each once |
| MyCalendar.LoadedAfterAllEvents | MMM-MyCalendar.js:138-141 | once known-url events arrive for every pending fetch, the count is 0 and the module is loaded |
| MyCalendar.VisitCalendar | MMM-MyCalendar.js:366-379 | the inner loop pushes exactly the visible tagged events and tags the calendar in place |
| MyCalendar.CalendarModule.constructor | MMM-MyCalendar.js:82-91 | start: nothing loaded, no calendar data, no pending fetch |
| MyCalendar.CalendarModule.LoadCalendars | MMM-MyCalendar.js:102-122 | every calendar is prepared in place; pendingFetches rises by the number of calendars; one ADD_CALENDAR payload is sent per calendar, in order |
| MyCalendar.CalendarModule.BroadcastEvents | MMM-MyCalendar.js:519-535 | sends `BroadcastList` of calendarData and changes nothing else |
| MyCalendar.CalendarModule.SocketNotificationReceived | MMM-MyCalendar.js:125-161 | the module state afterwards is `Receive` of the state before |
| MyCalendar.CalendarModule.StoreCalendarEvents | MMM-MyCalendar.js:128-146 | for a configured url the events are stored or appended, pendingFetches falls by one, loaded is set when it reaches 0, and a broadcast follows when enabled |
| MyCalendar.CalendarModule.CreateEventList | MMM-MyCalendar.js:361-387 | returns `EventList` of calendarData; calendarData becomes `TagAll` of it |
| MyCalendar.CalendarModule.TitleTransform | MMM-MyCalendar.js:498-513 | the title-replace table is applied in order, then the title is shortened to maxLength, or to maxTitleLength when maxLength is undefined or 0 |

## Left out

- Network and transport: `https.get`, response streaming, the TLS agent and the request's `error`/`timeout` events. A failure arrives as a method call (`RequestFailed`), a response as `Complete`. The timeout handler also destroys the request (calendarfetcher.js:264), which in Node's HTTP client raises `error` as well, so one timeout can report a failure and reschedule twice: two `RequestFailed` calls, which the model allows.
- Real timers: `setTimeout`/`clearTimeout` become handles in `pendingTimers`; a firing is the call `TimerFired`. The front end's 1-second deferred start is the separate call `LoadCalendars`.
- iCalendar parsing (`ical.parseICS`) and recurrence expansion: a component's `rrule` is the rule's ordered occurrence stream, given as input. A parse failure is `parsed == None`. Exceptions thrown by `rrule.between` are not modelled.
- `moment` date arithmetic and time zones: `todayTime`, `futureTime` and the day test `isToday` are inputs (`Reference`).
- Unparsed response text: at calendarfetcher.js:213-214 the code passes the raw response text to `processEvents` instead of the parsed data. The model passes the parsed components, as the function's documentation describes.
- `includePastEvents` is accepted by the fetcher but never read; `Config` carries it only to mirror the constructor's signature.
- `fullDayEvent` tests a property of a library object, so it is taken from the input flag `hasHour`.
- Callback registration (`onReceive`, `onError`): callbacks are assumed registered before the first fetch, and their calls are recorded in `notices`.
- The fetcher accessors `url()`, `events()` and `hasMoreEvents()` only return fields; the model reads the fields.
- The cache store's implementation is not part of this model: it is assumed to expire entries ttl milliseconds after they are set. Cache keys are structured values, so a url ending in `_page_<n>` colliding with another calendar's page key is not modelled.
- PageHit / MetaHit: a page key holding a metadata record, or the reverse, reads as a miss, where the source would take `cachedPage.events` (undefined) as the events. Only the key collision in the line above can put such a value there.
- TitleTransform: regular-expression needles are passed to a caller-supplied function `regex` rather than modelled; replacement strings are inserted literally, without JavaScript's `$` substitution patterns.
- TitleTransform: needles are applied in table order; JavaScript's rule that integer-like keys are enumerated first is not modelled.
- Text: case mapping is ASCII only, and string lengths count Unicode scalar values rather than UTF-16 code units, which affects `shorten` on astral characters.
- Base64: `Buffer.from` replaces lone surrogates with U+FFFD; Dafny strings hold only scalar values, so this case does not arise.
- DOM and presentation: `getDom`, `createEventRow`, pagination controls, fading, `formatTime`, `symbolsForUrl`/`colorForUrl`/`countTitleForUrl` (thin wrappers over `GetCalendarProperty`), translations, locale and logging.
- `updateDom` calls after each notification.
- The module's own `hasMoreEvents`/`loadMoreEvents` (MMM-MyCalendar.js:538-554) and the manual script `test_calendar.js`: presentation and I/O.
