# Website analytics aggregation, modelled in Dafny

This project models the analytics core of a small web-analytics dashboard. The React hook
`useAnalytics(trackingId)` loads the stored events of one tracked website and derives a summary from
them:

- page views, unique visitors, a click-count stand-in for time on page and a bounce rate;
- the five most viewed pages and the counts per device class;
- custom events grouped by name, and page views per day.

The hook keeps the summary and three other views of the batch as state. It replaces them when a batch
load answers and when a live notification announces a new event document.

Layout, one module per part of hooks/use-analytics.ts:

- `records.dfy`: `Option`, and the JavaScript object used as a dictionary by every `reduce` in the
  hook: an insertion-ordered list of entries with `Put`/`Lookup`. `Tally` is the recurring counter
  pattern `acc[k] = (acc[k] || 0) + 1`, with its specification (`TallySpec`).
- `events.dfy`: the event record of types/event.ts and the metadata parsing at the head of
  `updateAnalytics`.
- `sessions.dfy`: `calculateSessionDurations`, a method with its loop, proved equal to a closed-form
  reference definition, and the average taken of it.
- `visitors.dfy`: unique visitors and `calculateBounceRate`.
- `toppages.dfy`: `aggregatePageViews` (count, stable sort by descending views, first five).
- `devices.dfy`: `aggregateDeviceStats` and the user-agent classification.
- `customevents.dfy`: `processCustomEvents`.
- `timeseries.dfy`: `generateTimeSeriesData`.
- `analytics.dfy`: `updateAnalytics` as a function of the parsed batch (`Analyze`), the initial state
  and the properties that relate the summary's fields.
- `hook.dfy`: the hook's state as a class `UseAnalytics`. Its methods are `UpdateAnalytics`,
  `LoadAnalytics` (the answer of the store query) and `OnNotification` (the subscription callback),
  plus the transition functions that specify them.

The model follows the code in three places where one might expect otherwise:

- Malformed metadata is not tolerated. `JSON.parse` throws, so the whole batch is dropped before any
  state is set. No event is given an empty mapping in its place.
- There is no incremental fold. A live event replaces the state by the analysis of that one event
  alone (`AnalyticsHook.NotificationReplaces`). It is not merged into the earlier summary.
- An empty batch does not reach `updateAnalytics`: the state is kept, not reset. From the initial
  state the two coincide (`Analytics.AnalyzeEmpty`).

## Model

| member | source | states |
|---|---|---|
| Events.ParseEventsSpec | hooks/use-analytics.ts:88-91 | parsing a batch succeeds exactly when every metadata string is empty or parses; it then keeps the events, their order and every other field, and an empty string gives the empty mapping |
| Events.OfKind | hooks/use-analytics.ts:93-96 | the filter keeps exactly the events of the given kind |
| Events.OfKindCount | hooks/use-analytics.ts:93-96 | the filter keeps as many events as that kind occurs in the batch |
| Analytics.PageViewTotals | hooks/use-analytics.ts:93-99 | `totalPageViews` is the number of events whose kind is exactly `pageview`, and the per-day series adds up to it |
| Visitors.UniqueVisitorsAppend | hooks/use-analytics.ts:101-102 | an event of a visitor already seen leaves the unique-visitor count unchanged; one of a new visitor raises it by one |
| Analytics.SummaryReorder | hooks/use-analytics.ts:93-102 | any reordering of the batch gives the same page-view total, unique-visitor count, bounce rate and per-device counts |
| Sessions.CalculateSessionDurations | hooks/use-analytics.ts:164-182 | the loop returns exactly the reference list `SessionDurations`: one entry per pageview at a position above 0, holding the clicks since the previous pageview or the batch start |
| Sessions.PageviewIndicesSpec | hooks/use-analytics.ts:169-175 | the positions at which a duration is pushed are exactly the pageviews at positions above 0, listed in increasing order |
| Sessions.SessionDurationsStep | hooks/use-analytics.ts:171-178 | one more event pushes the open session's clicks if it is a pageview at a position above 0, and pushes nothing otherwise |
| Sessions.OpenSessionStep | hooks/use-analytics.ts:171-178 | the running counter is reset by a pageview, raised by one by a click and left alone by every other kind |
| Sessions.SessionCount | hooks/use-analytics.ts:171-174 | the number of durations is the number of pageviews, less one if the batch starts with a pageview |
| Sessions.SessionClicksAccounted | hooks/use-analytics.ts:164-182 | the pushed durations plus the clicks after the last pushing pageview add up to all clicks, so those trailing clicks are never pushed |
| Sessions.Average | hooks/use-analytics.ts:106-108 | the mean is 0 for an empty list and never negative |
| Sessions.AverageSpec | hooks/use-analytics.ts:106-108 | for a non-empty list, the mean times the count is the sum |
| Analytics.SummarySessions | hooks/use-analytics.ts:104-134 | `sessions.total` is the length of the duration list and at most `totalPageViews`; `averageTimeOnPage` and `sessions.averageDuration` are both the mean of that list |
| Visitors.GroupKeys | hooks/use-analytics.ts:185-193 | the visitor groups are keyed by visitor, in the order of each visitor's first event |
| Visitors.GroupLookup | hooks/use-analytics.ts:185-191 | a visitor's group holds exactly that visitor's events in arrival order; no group exists for a visitor without events |
| Visitors.GroupCount | hooks/use-analytics.ts:193 | there are as many groups as distinct visitors |
| Visitors.BouncedCount | hooks/use-analytics.ts:194-196 | the groups with exactly one event are as many as the visitors with exactly one event |
| Visitors.BounceRateSpec | hooks/use-analytics.ts:184-199 | the bounce rate is (visitors with exactly one event) / (distinct visitors), and 0 when there are no visitors, which is exactly the empty batch; it lies in [0, 1] |
| Visitors.NoBounces | hooks/use-analytics.ts:194-198 | the bounce rate is 0 when every visitor has at least two events |
| Visitors.AllBounces | hooks/use-analytics.ts:194-198 | the bounce rate is 1 when the batch is non-empty and every visitor has exactly one event |
| TopPages.PageEntriesSpec | hooks/use-analytics.ts:218-230 | before sorting there is one entry per distinct page (a missing or empty `page` counts as "/"), in first-occurrence order, each with that page's number of events |
| TopPages.SortSpec | hooks/use-analytics.ts:231 | the sort returns a permutation of its input with views non-increasing |
| TopPages.SortStable | hooks/use-analytics.ts:231 | entries with equal views keep their input order |
| TopPages.TopPagesLength | hooks/use-analytics.ts:232 | the list has min(5, number of distinct pages) entries |
| TopPages.TopPagesSorted | hooks/use-analytics.ts:231-232 | views never increase along the list |
| TopPages.TopPagesDistinct | hooks/use-analytics.ts:218-232 | no page is listed twice |
| TopPages.TopPagesCounts | hooks/use-analytics.ts:218-222 | each listed page was viewed, and its `views` is its number of pageview events |
| TopPages.TopPagesComplete | hooks/use-analytics.ts:231-232 | a viewed page left out of the list means five pages are listed, each with at least as many views as it |
| TopPages.TopPagesStable | hooks/use-analytics.ts:224-232 | of two listed pages with equal views, the one first viewed earlier comes first |
| Devices.IncludesIff | hooks/use-analytics.ts:240-247 | `includes` holds exactly when the keyword occurs at some position |
| Devices.Classify | hooks/use-analytics.ts:237-250 | every user agent gets one of the four labels `mobile`, `tablet`, `desktop`, `unknown` |
| Devices.ClassifyPrecedence | hooks/use-analytics.ts:238-250 | each label is chosen exactly when its keywords occur in the lower-cased user agent and no earlier class's keyword does |
| Devices.ClassifyIgnoresCase | hooks/use-analytics.ts:238 | two user agents that differ only in the case of letters get the same label |
| Devices.DeviceStatsSpec | hooks/use-analytics.ts:235-255 | only the four labels occur as keys, each once, in first-occurrence order; each count is the number of events of that class, and the counts add up to the batch size |
| CustomEvents.EventNameSpec | hooks/use-analytics.ts:144-146 | on a custom event, the name is the kind with the `custom:` prefix taken off |
| CustomEvents.CustomEventsOf | hooks/use-analytics.ts:144 | exactly the events whose kind starts with `custom:` are kept |
| CustomEvents.GroupByNameKeys | hooks/use-analytics.ts:145-161 | the names appear in the order of their first event |
| CustomEvents.GroupByNameLookup | hooks/use-analytics.ts:146-159 | a name's entry counts its events and holds their metadata in arrival order; no entry exists for a name that never occurred |
| CustomEvents.CustomEventsSpec | hooks/use-analytics.ts:142-161 | the summary's list has one entry per distinct name, in first-occurrence order, whose `count` equals both the number of that name's events and the length of its `metadata`, which lists their metadata in arrival order |
| CustomEvents.CustomEventsIgnoreOthers | hooks/use-analytics.ts:144 | an event that is not custom leaves the groups unchanged |
| CustomEvents.ScenarioSignups | hooks/use-analytics.ts:142-161 | two `custom:signup` events with metadata `{plan: "pro"}` give exactly one entry `{name: "signup", count: 2}` holding both mappings |
| TimeSeries.DateKeys | hooks/use-analytics.ts:203 | one date key per event, computed from that event's timestamp |
| TimeSeries.TimeSeriesSpec | hooks/use-analytics.ts:201-215 | one point per distinct date key, in first-occurrence order, each value that day's number of events (at least 1), the values adding up to the batch size |
| Analytics.AnalyzeEmpty | hooks/use-analytics.ts:23-40 | analysing an empty batch gives exactly the initial all-zero state |
| Analytics.SummaryConsistent | hooks/use-analytics.ts:122-139 | the summary's page list is the `topPages` state, the device counts cover every event once, and the bounce rate is a proportion |
| Analytics.SingleEventSummary | hooks/use-analytics.ts:87-140 | a one-event batch gives one visitor, a bounce rate of 1, no pushed session, and one page view exactly when the event is a pageview |
| Analytics.ScenarioTwoVisitors | hooks/use-analytics.ts:87-140 | pageview "/" and click by one visitor, then pageview "/about" by another: 2 page views, 2 visitors, bounce rate 0.5, both pages with one view in first-view order, one session of one click |
| AnalyticsHook.UseAnalytics.constructor | hooks/use-analytics.ts:23-40 | the hook starts from the all-zero summary, empty lists and device counts, and `loading` set |
| AnalyticsHook.UseAnalytics.UpdateAnalytics | hooks/use-analytics.ts:87-140 | the new state is the analysis of the parsed batch, computed with the session-duration loop; it is unchanged when some metadata does not parse |
| AnalyticsHook.UseAnalytics.LoadAnalytics | hooks/use-analytics.ts:47-65 | a failed query or an empty batch leaves the state alone, a non-empty batch is analysed, and `loading` is cleared in every case |
| AnalyticsHook.UseAnalytics.OnNotification | hooks/use-analytics.ts:67-80 | only a document-creation notification whose payload has this hook's tracking id updates the state, with that one event |
| AnalyticsHook.LoadSpec | hooks/use-analytics.ts:55-59 | a load changes the state only for a non-empty batch whose metadata all parses, and then to that batch's analysis whatever the earlier state |
| AnalyticsHook.InitialEmptyLoad | hooks/use-analytics.ts:55-59 | an empty load keeps the initial state, which is also what analysing the empty batch gives |
| AnalyticsHook.NotificationIgnored | hooks/use-analytics.ts:71-77 | a notification that is not a document creation, or is for another tracking id, leaves the state unchanged |
| AnalyticsHook.NotificationReplaces | hooks/use-analytics.ts:74-76 | an accepted live event replaces the whole state by the analysis of that event alone: one visitor, a bounce rate of 1, at most one page view, no session, whatever came before |
| Records.TallySpec | hooks/use-analytics.ts:218-222 | the counter `acc[k] = (acc[k] or 0) + 1` has distinct keys in first-occurrence order, one per distinct key, each the key's multiplicity, summing to the number of keys |
| Records.PutLookup | hooks/use-analytics.ts:220 | assigning a property changes that key's value and no other |

## Left out

- The Appwrite calls (`listDocuments`, `subscribe`), React's `useState`/`useEffect`, `console.log` and the unsubscribe closure. `LoadAnalytics` takes the query's answer as a parameter: None for a rejected query, otherwise the documents. `OnNotification` takes the realtime message.
- The store's filtering. The `trackingId` filter and `Query.limit(100)` of the load query are carried out by the store, so any batch handed to `LoadAnalytics` is accepted.
- Re-running the effect when `trackingId` changes. Each hook instance has one fixed tracking id, and the subscription that is never unsubscribed is not modelled.
- Asynchrony. The load and the notifications are separate method calls that may come in any order. Nothing interleaves inside a call.
- `JSON.parse` is a parameter `parse`, whose None result means it throws. Parsed metadata is a mapping from property names to the JSON text of their values. A parse result that is not an object (`null`, a number, a string that line 157 would parse again) is not modelled.
- `new Date(timestamp).toLocaleDateString()` is a parameter `dateKey`, because it depends on the host's locale and time zone.
- The `timestamp` (wall-clock `new Date().toISOString()`) and the duplicate `metadata: {page, views}` of each top-page entry are left out. Entries hold `page` and `views` only.
- Floating point. The two divisions (average and bounce rate) are exact `real` divisions, not IEEE-754 doubles.
- Integer-like keys. Object key order puts such keys (a page path "1" or a date key made of digits) ahead of the others. The model keeps insertion order for every key.
- Prototype-named keys. Names such as `constructor` or `__proto__` behave differently on a JavaScript object and are treated as ordinary keys here.
- Devices.Classify: lower-cases only the ASCII letters A-Z, whereas `toLowerCase` also maps other Unicode letters. A `userAgent` that is missing (and would make `toLowerCase` throw) is not modelled, because every field of the record is a string.
- The ingestion endpoint (app/api/track/route.ts) is not part of this model, nor are the tracking script (lib/tracking-script.ts) and the UI and setup code. They are I/O, templating and rendering.
- The `reduce` accumulators are updated in place in the source. The model folds them as values: each accumulator is local to its call and never shared, so no aliasing is lost.
