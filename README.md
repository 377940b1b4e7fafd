# Participant tracking engine of the AI-overview search study

This project models, in Dafny, the part of the study web application that
records what a participant does on the simulated search pages and stores it
on the server:

- the browser-side tracking engine (`lib/analytics.ts`). It keeps one task
  session, a pending-click marker, a click id and the remembered participant
  id (`RID`) in the browser's local store. It turns link clicks and
  "show more" / "show all" expansions into ordered events, measures dwell
  time when the participant comes back from a link, and hands every changed
  session to the server.
- the server's upsert of a submitted session
  (`app/api/participant/task-records/route.ts`). Records are keyed by
  `task_id`; a new record is created, or an existing one is extended,
  append-only, with the events whose identity key it has not seen.
- the client's save call and its "retry" wrapper (`lib/database-service.ts`).
- the pure path and string helpers that feed the tracker: result
  segmentation, topic and page number from a path (`lib/search-data.ts`), the
  tab bar (`components/search-tabs.tsx`), and the tracked link
  (`components/tracked-link.tsx`).

Layout, one module per concern:

| file | module | models |
|---|---|---|
| `types.dfy` | `Types` | the wire and storage shapes: `TaskSession`, `ClickEvent`, `Interaction` |
| `strings.dfy` | `Strings` | `includes`, `startsWith`, `split`, `join`, `filter(Boolean)`, number text |
| `timestamp.dfy` | `Timestamp` | `pad` and `changeCurrentDateTime` |
| `context.dfy` | `Context` | `extractUrlParams` and `getTaskType` |
| `classifier.dfy` | `Classifier` | the page-id switch, the two flags, `getPageNumber` and the counter bucket |
| `sessions.dfy` | `Sessions` | the new session, the reuse test, `getNextClickOrder`, counter bump, end stamp, the ordering invariant |
| `engine.dfy` | `Engine` | each exported tracker operation as a step function on the local store plus an outbox, with its properties |
| `tracker.dfy` | `Tracking` | the tracker as a class over the stored keys and the latch; each method is proved equal to its step function |
| `records.dfy` | `Records` | the server's POST handler: validation, create, key-based merge; a class owning the record map |
| `delivery.dfy` | `Delivery` | `saveTaskRecord` and `saveTaskRecordWithRetry` over a scripted transport |
| `endtoend.dfy` | `EndToEnd` | the outbox delivered to the record store: re-delivery is a no-op, and a dwell time never reaches a stored click |
| `searchdata.dfy` | `SearchData` | `processSearchData`, `getTopicFromPathname`, `getPageNumberFromPathname`, `hasDiscussions` |
| `searchtabs.dfy` | `SearchTabs` | `basePath`, `allHref` and the ordered tab list |
| `trackedlink.dfy` | `TrackedLink` | `isStaticHtml`, the link text and the shared click handler |

Where each source function lives (functions without a contract of their
own; their properties are the lemmas in the table below):

- `extractUrlParams` → `Engine.ExtractUrlParams`, built on `Context.ParamsOf` and `Context.RidAfter`; `getTaskType` → `Context.TaskType`
- `pad`, `changeCurrentDateTime` → `Timestamp.Pad`, `Timestamp.Format`
- `getNextClickOrder` → `Sessions.NextClickOrder`; the new-session literal → `Sessions.NewSession`; the reuse test → `Sessions.Matches`
- `saveSessionToDatabase` → an append to the outbox (`Engine.Save`, `Tracking.Tracker.Send`)
- `createNewSession`, `getCurrentTaskSession`, `endTaskSession`, `initializeSession` → `Engine.CreateNewSession`, `Engine.GetCurrentTaskSession`, `Engine.EndTaskSession`, `Engine.InitializeSession`, and the `Tracking.Tracker` methods of the same names
- `trackLinkClick` → `Engine.TrackLinkClick` (lookup, then `Engine.RecordClick`), with the page id and flags from `Classifier.Classify`, the counter from `Classifier.Bucket` and `Sessions.BumpCounter`
- `getPageNumber` → `Classifier.PageNumber`
- `trackShowMoreClick`, `trackShowAllClick` → `Engine.TrackShowMoreClick`, `Engine.TrackShowAllClick`
- `trackReturnFromLink` → `Engine.TrackReturnFromLink` (ending in `Engine.CompleteClick`), dwell time by `Engine.DwellTenths`
- `POST` of the task-records route → `Records.Handle` (create: `Records.Created`; update: `Records.Merged` with `Records.Fresh`) and `Records.RecordStore.Post`
- `saveTaskRecord`, `saveTaskRecordWithRetry` → `Delivery.SaveTaskRecord`, `Delivery.SaveTaskRecordWithRetry`, result by `Delivery.Saved`
- `processSearchData`, `getTopicFromPathname`, `getPageNumberFromPathname`, `hasDiscussions` → `SearchData.ProcessSearchData`, `SearchData.TopicFromPathname`, `SearchData.PageNumberFromPathname`, `SearchData.HasDiscussions`
- `SearchTabs`'s `basePath`, `allHref` and tab list → `SearchTabs.BasePath`, `SearchTabs.AllHref` (computed by `SearchTabs.ComputeAllHref`), `SearchTabs.Tabs`, `SearchTabs.TabLinks`
- `TrackedLink`'s `isStaticHtml`, link text, `handleClick` and rendering → `TrackedLink.IsStaticHtml`, `TrackedLink.LinkText`, `TrackedLink.OnClick`, `TrackedLink.Render`

Every remote save is an append to the store's `outbox`: a ghost field in the
class, a plain field of the `Engine.Store` value. Clock readings and the
browser location are parameters. Dwell time is kept in integer tenths of a
second.

Some behaviours are modelled exactly as the code has them, although one
might expect otherwise:

- The local copy lags the click. `trackLinkClick` stores the session without
  the new click (`lib/analytics.ts:279`) and pushes the click only into the
  copy it sends (`:284`). The click enters the local `click_sequence` only
  when the participant returns (`:416`). An expansion recorded in between
  gets the pending click's own `click_order` (`Engine.ExpansionReusesPendingOrder`).
  Unique orders are therefore proved only while each click's return is
  processed first (`Engine.ShowMoreConsistent` requires no pending click).
- Orders can have gaps. `endTaskSession` removes the stored session but not
  the pending click (`lib/analytics.ts:427-446`). A return that finds no
  matching session starts a new one and appends the click with its old
  `click_order` (`:402`, `:416`). A click of order 3 then makes `[3]` the new
  session's only order (`Engine.ReturnToNewSessionLeavesGap`,
  `Engine.EndThenReturnLeavesGap`). The page runs `initializeSession` before
  `trackReturnFromLink` on mount, so a location change has the same effect.
  Orders exactly 1..N (`Sessions.GapFree`) are proved for a new session, for
  expansions, for link clicks, and for a return that finds the clicked
  session still stored (`Engine.ClickThenReturnGapFree`).
- The dwell time never reaches the server's copy of a click. The click is
  first stored without it, and the server never modifies an existing event
  (`EndToEnd.ClickDwellNeverStored`).
- A plain `"SearchResults"` name has no page number and is counted in bucket
  4 (`Classifier.BucketOfPlainResults`).
- `saveTaskRecordWithRetry` makes exactly one attempt. Its loop only counts
  (`Delivery.SaveTaskRecordWithRetry`).

## Model

| member | source | states |
|---|---|---|
| `Timestamp.Pad` | lib/analytics.ts:91-93 | the padded text is digits that read back as the number, exactly two characters below 100, and the plain decimal text from 10 up |
| `Timestamp.FormatLayout` | lib/analytics.ts:95-106 | a valid clock reading gives 19 characters `YYYY-MM-DD HH:MM:SS` with separators at fixed places, each field reading back as its value |
| `Timestamp.FormatInjective` | lib/analytics.ts:95-106 | distinct valid clock readings give distinct timestamps, so a timestamp identifies its second |
| `Timestamp.FormatExample` | lib/analytics.ts:103-105 | 5 March 2024 09:07:03 is written `2024-03-05 09:07:03` |
| `Context.ParticipantOf` | lib/analytics.ts:34-35 | the participant id is never empty: `RID` query parameter, else the remembered id, else `"0"` |
| `Context.RidAfter` | lib/analytics.ts:37-39 | the remembered id is overwritten with the participant id exactly when that is not `"0"` |
| `Context.TaskType` | lib/analytics.ts:66-69 | the task type is `"product"` exactly for Laptop, Phone, Car-vehicle and Cruise, `"info"` otherwise |
| `Context.ShortPathParams` | lib/analytics.ts:41-62 | a path of fewer than three segments yields empty topic and group, whatever the `RID` query parameter; the participant id comes from the query or the remembered id |
| `Context.StudyPathParams` | lib/analytics.ts:44-58 | a four-segment study path and its three-segment prefix give the same topic and group |
| `Context.FromOverridesPathname` | lib/analytics.ts:29-31 | a non-empty `from` parameter replaces the pathname entirely |
| `Context.ParticipantIsRemembered` | lib/analytics.ts:34-39 | once a non-`"0"` id has been seen, a later location without `RID` yields the same id |
| `Context.ExtractTwice` | lib/analytics.ts:28-62 | extracting twice from one location gives the same values and remembered id |
| `Classifier.PageFamily` | lib/analytics.ts:203-244 | every page-id family is one of the ten fixed prefixes |
| `Classifier.Classify` | lib/analytics.ts:192-244 | `from_overview` and `from_ai_mode` are never both set |
| `Classifier.ExactNamesExclusive` | lib/analytics.ts:196-224 | the overview names do not contain `AIMode` and the AI-mode names do not contain `AiOverview-References` |
| `Classifier.PageIdShape` | lib/analytics.ts:203-244 | every page id is a fixed prefix followed by the 1-based link number |
| `Classifier.ClassifyFlags` | lib/analytics.ts:196-224 | `from_overview` holds exactly for the overview names and names containing `AiOverview-References`; `from_ai_mode` exactly for the AI-mode names and other names containing `AIMode` |
| `Classifier.ClassifyOrganicExample` | lib/analytics.ts:203-204 | `SearchResults_2` with index 4 gives `organic_5` and neither flag |
| `Classifier.ClassifyOverviewExample` | lib/analytics.ts:215-218 | `AiOverview-References` with index 0 gives `overview_ref_1` from the overview |
| `Classifier.NumberedFamilies` | lib/analytics.ts:203-206 | numbered result names give `organic_`, numbered sitelink names `sitelink_`; the two prefixes do not capture each other |
| `Classifier.FindFromLeftmost` | lib/analytics.ts:299-302 | the pattern search returns the match at the leftmost position that has one, and nothing when none does |
| `Classifier.PageNumberOfResults` | lib/analytics.ts:299-302 | `SearchResults_<n>` reads back page number n |
| `Classifier.PageNumberOfSitelinks` | lib/analytics.ts:299-302 | `SearchResults-Sitelinks_<n>` reads back page number n |
| `Classifier.PlainNameHasNoNumber` | lib/analytics.ts:299-302 | the plain `SearchResults` name has no page number |
| `Classifier.Bucket` | lib/analytics.ts:264-275 | a bucket exists exactly when the name contains `SearchResults`, and lies in 1-4 |
| `Classifier.BucketOfResults` | lib/analytics.ts:264-275 | a numbered result name feeds bucket n for n in 1-3 and bucket 4 for any other n |
| `Classifier.BucketOfSitelinks` | lib/analytics.ts:264-275 | a numbered sitelink name feeds bucket n for n in 1-3 and bucket 4 for any other n |
| `Classifier.BucketOfPlainResults` | lib/analytics.ts:264-275 | the unnumbered `SearchResults` is counted in bucket 4 |
| `Sessions.NewSessionShape` | lib/analytics.ts:116-136 | a new session is keyed `participant_topic_treatment`, has zero counters, empty sequences and no end time |
| `Sessions.NewSessionMatches` | lib/analytics.ts:159-163 | a new session passes the reuse test for its own topic and group, whatever the participant id |
| `Sessions.NextClickOrder` | lib/analytics.ts:109-114 | the next order is at least 1, exceeds each sequence's last order, and is one more than the largest of them |
| `Sessions.NewSessionWellOrdered` | lib/analytics.ts:129-131 | a new session satisfies the ordering invariant |
| `Sessions.NextOrderIsFresh` | lib/analytics.ts:109-114 | on a well-ordered session the next order exceeds every order in use |
| `Sessions.AppendClickWellOrdered` | lib/analytics.ts:246-248 | appending a click whose order is at least the next order keeps the session well ordered |
| `Sessions.AppendShowMoreWellOrdered` | lib/analytics.ts:309-319 | appending a show-more interaction with at least the next order keeps the session well ordered |
| `Sessions.AppendShowAllWellOrdered` | lib/analytics.ts:333-343 | appending a show-all interaction with at least the next order keeps the session well ordered |
| `Sessions.SharedOrderBreaks` | lib/analytics.ts:279-284 | a click carrying the last show-more order cannot join the session without repeating an order |
| `Sessions.BumpKeepsRest` | lib/analytics.ts:264-275 | the counter bump changes no sequence, key field or order |
| `Sessions.ClickCounters` | lib/analytics.ts:264-275 | a `SearchResults` click raises exactly one counter by one, the one of its bucket; other clicks change no counter; nothing else changes |
| `Sessions.Ended` | lib/analytics.ts:432 | the end stamp sets `task_end_time` and changes nothing else |
| `Sessions.ClickIdExtendsTaskId` | lib/analytics.ts:291 | the click id is the task id followed by `_` and the order |
| `Engine.DwellTenths` | lib/analytics.ts:391-393 | the dwell time in tenths is the nearest tenth of the elapsed milliseconds, halves rounded up |
| `Engine.DwellExamples` | lib/analytics.ts:391-393 | 2350 ms gives 2.4 s, 2349 ms gives 2.3 s, 49 ms gives 0 |
| `Engine.CurrentSessionStored` | lib/analytics.ts:149-175 | the lookup leaves a stored session matching the location and returns it; marker, start time, click id and latch are untouched; the outbox only grows |
| `Engine.CurrentSessionIgnoresLatch` | lib/analytics.ts:149-175 | the session lookup neither reads nor writes the latch |
| `Engine.CurrentSessionReused` | lib/analytics.ts:159-170 | a stored session whose group, topic and task type match is returned unchanged and nothing is sent, even for another participant id; only the remembered `RID` may change |
| `Engine.CurrentSessionReplaced` | lib/analytics.ts:159-168 | a non-matching session is stamped with the end time and sent, then a fresh session for the current parameters is stored and sent; marker, start time, click id and latch are untouched |
| `Engine.CurrentSessionCreated` | lib/analytics.ts:171-174 | without a stored session a fresh one for the current parameters is stored and sent; nothing else changes but the remembered `RID` |
| `Engine.EndSends` | lib/analytics.ts:427-446 | ending sends the stored session with its end time and removes it; without one nothing changes |
| `Engine.LinkClickWrites` | lib/analytics.ts:246-296 | the marker has no dwell time and the next order; the stored session has the counter bumped but lacks the click; the sent one has the click; the timer starts; the id is `participant_topic_treatment_order` |
| `Engine.SecondClickReusesOrder` | lib/analytics.ts:246-296 | a second link click before the first one's return takes the same order, and both sent copies end with a click of that order |
| `Engine.LinkClickIsLookupThenRecord` | lib/analytics.ts:185 | a link click is the session lookup followed by those writes |
| `Engine.BumpThenClickOrdered` | lib/analytics.ts:264-284 | the bumped session stays well ordered, keeps the click's order as its next order, and stays well ordered with the click |
| `Engine.RecordClickOrdered` | lib/analytics.ts:246-287 | from a well-ordered session, the sent and the stored sessions are well ordered and the marker carries the stored copy's next order |
| `Engine.CurrentSessionWellOrdered` | lib/analytics.ts:149-175 | the lookup returns a well-ordered session when the stored one was |
| `Engine.AddShowMoreAppends` | lib/analytics.ts:307-319 | show-more appends exactly one interaction with the next order, name and time, and leaves every other field alone |
| `Engine.AddShowAllAppends` | lib/analytics.ts:331-343 | show-all appends exactly one interaction with the next order, name and time, and leaves every other field alone |
| `Engine.ShowMoreStoresAndSends` | lib/analytics.ts:319-325 | the extended session is stored and sent; marker and start time are untouched |
| `Engine.ShowAllStoresAndSends` | lib/analytics.ts:343-349 | the extended session is stored and sent; marker and start time are untouched |
| `Engine.ReturnWithoutMarker` | lib/analytics.ts:357-368 | with the latch held or no marker, the return changes nothing |
| `Engine.ReturnClearsMarker` | lib/analytics.ts:371-389 | with a marker, marker and start time are removed before anything else; a missing start time aborts; the latch is free afterwards |
| `Engine.ReturnRecordsDwell` | lib/analytics.ts:391-421 | the click with its dwell time is appended, stored and sent unless a click with the same time and page id exists, in which case only the lookup's effects remain |
| `Engine.ReturnTwice` | lib/analytics.ts:354-425 | a second return signal right after the first changes nothing, so a pending click completes at most once |
| `Engine.CurrentSessionConsistent` | lib/analytics.ts:149-175 | the session lookup preserves the store's ordering invariant |
| `Engine.LinkClickConsistent` | lib/analytics.ts:178-297 | a link click preserves the ordering invariant |
| `Engine.EndConsistent` | lib/analytics.ts:427-446 | ending the session preserves the ordering invariant |
| `Engine.ShowMoreConsistent` | lib/analytics.ts:304-326 | show-more preserves the ordering invariant while no click is pending |
| `Engine.ShowAllConsistent` | lib/analytics.ts:328-350 | show-all preserves the ordering invariant while no click is pending |
| `Engine.CurrentSessionNextOrder` | lib/analytics.ts:149-175 | a pending order not below the stored session's next order is not below the looked-up session's next order |
| `Engine.SaveConsistent` | lib/analytics.ts:416-417 | storing a well-ordered session with no click pending is consistent |
| `Engine.ReturnConsistent` | lib/analytics.ts:354-425 | the return from a link preserves the ordering invariant, so a click's order stays unique when its return comes first |
| `Engine.ExpansionReusesPendingOrder` | lib/analytics.ts:279-319 | an expansion between a click and its return gets the pending click's order, and the click can then no longer join without a repeated order |
| `Sessions.NewSessionGapFree` | lib/analytics.ts:129-131 | a new session uses exactly the orders 1..N (none) |
| `Sessions.NextIsCount` | lib/analytics.ts:109-114 | on a well-ordered session whose orders are exactly 1..N, the next order is N + 1 |
| `Sessions.AppendClickGapFree` | lib/analytics.ts:406-417 | appending a click carrying the next order keeps the orders exactly 1..N |
| `Sessions.AppendShowMoreGapFree` | lib/analytics.ts:309-319 | appending a show-more interaction carrying the next order keeps the orders exactly 1..N |
| `Sessions.AppendShowAllGapFree` | lib/analytics.ts:333-343 | appending a show-all interaction carrying the next order keeps the orders exactly 1..N |
| `Engine.CurrentSessionGapFree` | lib/analytics.ts:149-175 | the lookup stores and returns a session without gaps when the stored one had none |
| `Engine.ShowMoreGapFree` | lib/analytics.ts:304-326 | a show-more expansion keeps the stored orders exactly 1..N |
| `Engine.ShowAllGapFree` | lib/analytics.ts:328-350 | a show-all expansion keeps the stored orders exactly 1..N |
| `Engine.LinkClickGapFree` | lib/analytics.ts:178-296 | a link click keeps the stored orders exactly 1..N |
| `Engine.ReturnGapFree` | lib/analytics.ts:354-425 | a return whose lookup finds the stored session still matching, with the pending click carrying its next order, keeps the orders exactly 1..N |
| `Engine.ClickThenReturnGapFree` | lib/analytics.ts:178-425 | a link click followed by its return at the same location keeps the stored orders exactly 1..N |
| `Engine.ReturnToNewSessionLeavesGap` | lib/analytics.ts:354-425 | a return that finds no matching session puts a pending click of order 2 or more alone into a new session, whose orders then have a gap |
| `Engine.EndThenReturnLeavesGap` | lib/analytics.ts:354-446 | ending the session while a click of order 2 or more is pending, then returning, leaves a session whose only order is that click's |
| `Tracking.CountPageClick` | lib/analytics.ts:264-275 | the in-place counter update equals the bucket bump |
| `Tracking.Tracker.constructor` | lib/analytics.ts:352 | a fresh page stores nothing but the remembered `RID`, the latch is free and the store is consistent |
| `Tracking.Tracker.Send` | lib/analytics.ts:72-89 | saving to the database appends the session to the outbox and changes nothing else |
| `Tracking.Tracker.ExtractUrlParams` | lib/analytics.ts:19-63 | the new state and result equal the `extractUrlParams` step |
| `Tracking.Tracker.EndTaskSession` | lib/analytics.ts:427-446 | the new state equals the `endTaskSession` step |
| `Tracking.Tracker.CreateNewSession` | lib/analytics.ts:116-146 | the new state and session equal the `createNewSession` step |
| `Tracking.Tracker.GetCurrentTaskSession` | lib/analytics.ts:149-175 | the new state and session equal the `getCurrentTaskSession` step |
| `Tracking.Tracker.TrackLinkClick` | lib/analytics.ts:178-297 | the new state and click id equal the `trackLinkClick` step |
| `Tracking.Tracker.TrackShowMoreClick` | lib/analytics.ts:304-326 | the new state equals the `trackShowMoreClick` step |
| `Tracking.Tracker.TrackShowAllClick` | lib/analytics.ts:328-350 | the new state equals the `trackShowAllClick` step |
| `Tracking.Tracker.TrackReturnFromLink` | lib/analytics.ts:354-425 | the new state equals the `trackReturnFromLink` step, latch released on every exit |
| `Tracking.Tracker.InitializeSession` | lib/analytics.ts:451-457 | the new state equals the session lookup's |
| `Records.Fresh` | app/api/participant/task-records/route.ts:47-54 | the kept events are submitted events with unseen keys, and every submitted event with an unseen key is kept |
| `Records.FreshCounts` | app/api/participant/task-records/route.ts:47-54 | an event is kept exactly as often as it was submitted when its key is unseen, never otherwise |
| `Records.FreshAppend` | app/api/participant/task-records/route.ts:47-54 | filtering a concatenation is concatenating the filtered parts, so submission order is kept |
| `Records.Handle` | app/api/participant/task-records/route.ts:7-107 | the status is 200, 201, 400 or 500; 400 exactly for a parsed body without participant or task id, whatever the store does; 500 exactly for an unparsable body or a store error on a valid one; 400 and 500 leave the store alone; 200 means the key existed and 201 that it was added |
| `Records.ValidationRejects` | app/api/participant/task-records/route.ts:12-17 | a missing participant id or task id gives 400 and no change, whether or not the store would fail |
| `Records.FaultRejects` | app/api/participant/task-records/route.ts:100-105 | a store error on a body that passed validation gives 500 and no change |
| `Records.CreateKeepsAll` | app/api/participant/task-records/route.ts:77-98 | a new task id is created with every submitted event, missing arrays as empty, status 201 |
| `Records.UpdateAppendsOnly` | app/api/participant/task-records/route.ts:33-76 | an existing record keeps its events in place, takes the submitted scalars, status 200; behind them each array gets exactly the submitted events with new keys, each as often as submitted, in submission order |
| `Records.FreshCovers` | app/api/participant/task-records/route.ts:36-54 | after a merge every submitted event's key is known to the record |
| `Records.MergeIdempotent` | app/api/participant/task-records/route.ts:36-54 | merging the same submission twice adds nothing the second time |
| `Records.CreatedIsMergeIntoEmpty` | app/api/participant/task-records/route.ts:77-98 | creating a record is merging into an empty one |
| `Records.CreateThenMerge` | app/api/participant/task-records/route.ts:36-98 | re-submitting the body a record was created from adds nothing |
| `Records.PostTwice` | app/api/participant/task-records/route.ts:7-107 | posting the same valid body twice leaves the store as the first post did, the second answer being 200 |
| `Records.NoInBatchDedup` | app/api/participant/task-records/route.ts:47-90 | on creation every submitted event, and on an update every submitted event with a new key, is stored as often as it was submitted, in all three arrays |
| `Records.TwoCopiesKept` | app/api/participant/task-records/route.ts:47-90 | two identical clicks with a new key are both created, and both appended to an existing record |
| `Records.KeysCollide` | app/api/participant/task-records/route.ts:37-48 | distinct clicks whose time and page id join to the same key string count as duplicates |
| `Records.IdDiscarded` | app/api/participant/task-records/route.ts:21 | the submitted `id` plays no part in the result |
| `Records.MissingArraysKeepEvents` | app/api/participant/task-records/route.ts:47-54 | an update without event arrays only overwrites the scalars |
| `Records.StoredEventsKept` | app/api/participant/task-records/route.ts:56-69 | a stored click is never modified by an update |
| `Records.RecordStore.constructor` | app/api/participant/task-records/route.ts:24-33 | the store starts empty |
| `Records.RecordStore.Post` | app/api/participant/task-records/route.ts:7-107 | the new record map and status equal the handler's |
| `Delivery.Saved` | lib/database-service.ts:10-36 | true exactly for a response with an ok status whose body reads as JSON; a non-ok status, an unreadable body or a failed request gives false |
| `Delivery.Transport.Post` | lib/database-service.ts:15-21 | the request is recorded as sent and takes the next scripted reply |
| `Delivery.SaveTaskRecord` | lib/database-service.ts:10-36 | sends once and returns whether the reply counts as saved, never failing |
| `Delivery.SaveTaskRecordWithRetry` | lib/database-service.ts:39-58 | sends exactly once whatever `maxRetries` is, and returns the first attempt's result |
| `Delivery.RetryExample` | lib/database-service.ts:39-57 | with the default three retries and a first reply of 503, one send and false |
| `EndToEnd.DeliverAppend` | app/api/participant/task-records/route.ts:7-107 | delivering two batches is delivering one after the other |
| `EndToEnd.RedeliveryIsNoop` | app/api/participant/task-records/route.ts:36-54 | sending the last snapshot again leaves the record store unchanged |
| `EndToEnd.HandleKeeps` | app/api/participant/task-records/route.ts:47-69 | once a click key is stored without dwell time, no request attaches one |
| `EndToEnd.DeliverKeeps` | app/api/participant/task-records/route.ts:47-69 | the same holds across any later sequence of deliveries |
| `EndToEnd.FirstDeliveryStores` | app/api/participant/task-records/route.ts:33-98 | the first delivery of a click without dwell time stores its key without one |
| `EndToEnd.LinkClickSends` | lib/analytics.ts:279-287 | a link click sends the current session plus the new click, still without dwell time |
| `EndToEnd.ClickDwellNeverStored` | lib/analytics.ts:246-287 | once a click's first snapshot is delivered, no later delivery gives its stored copy a dwell time |
| `EndToEnd.ReturnSendsDwell` | lib/analytics.ts:391-420 | the snapshot the return sends does carry the dwell time under the same key |
| `SearchData.Slice` | lib/search-data.ts:54-58 | a slice is at most as long as its bounds allow and equals the subsequence when the bounds are in range |
| `SearchData.ProcessCovers` | lib/search-data.ts:52-60 | the four segments concatenate to the input; the first three hold at most one result each; the bottom is the input minus three; `allResults` is the input |
| `SearchData.TopicOfJoined` | lib/search-data.ts:65-67 | the topic is the text between the first and second `/`, or empty when there is no `/` |
| `SearchData.TopicOfStudyPath` | lib/search-data.ts:65-67 | `/topic` and `/topic/...` both give `topic` |
| `SearchData.ParseInt` | lib/search-data.ts:75 | the result is missing exactly when no digits follow the optional whitespace (ECMAScript white space and line terminators) and sign |
| `SearchData.ParseIntOfNat` | lib/search-data.ts:75 | decimal text parses back to its number, also with non-digit text after it |
| `SearchData.PageNumberOfPagePath` | lib/search-data.ts:72-77 | a path ending in `/<n>` has page number n |
| `SearchData.TrailingSlashIsPageOne` | lib/search-data.ts:72-77 | a path ending in `/` has page number 1 |
| `SearchData.DiscussionTopics` | lib/search-data.ts:82-85 | discussions exist exactly for Car-vehicle, Phone and Taylor-swift |
| `SearchTabs.LazyCut` | components/search-tabs.tsx:13 | the lazy capture ends at the first position whose remainder the tail pattern accepts |
| `SearchTabs.LazyCutFinds` | components/search-tabs.tsx:13 | without line terminators the pattern always matches |
| `SearchTabs.BasePathOfTopic` | components/search-tabs.tsx:13-14 | on `/<t>` or `/<t>/...` the base path is `/<t>`, except for a numeric `t` with at most a slash after it |
| `SearchTabs.BasePathWithoutTopic` | components/search-tabs.tsx:13-14 | the empty path, `/`, and a single number with or without a trailing slash give an empty base path |
| `SearchTabs.ComputeAllHref` | components/search-tabs.tsx:17-35 | the in-place computation yields the All-tab href |
| `SearchTabs.AllHrefFromAiMode` | components/search-tabs.tsx:19-27 | a path ending in `/ai-mode` leads to `/iframe/<first segment>/middle-ai-overview/have-ai-mode/1` |
| `SearchTabs.AllHrefElsewhere` | components/search-tabs.tsx:28-35 | otherwise four or more segments keep all but the last, which becomes `1`, behind a `/`; shorter paths give `/` |
| `SearchTabs.AllHrefExamples` | components/search-tabs.tsx:19-27 | `/Phone/ai-mode` leads to `/iframe/Phone/middle-ai-overview/have-ai-mode/1` |
| `SearchTabs.TabLinks` | components/search-tabs.tsx:48-61 | one link per tab |
| `SearchTabs.TabOrder` | components/search-tabs.tsx:37-61 | the tabs are AI Mode, All, Images, Short videos, Forums, More; the AI Mode href is the base path's AI-mode page with `from`; the tab at i reports `SearchTabs`, index i and page id `tab_<i+1>` |
| `TrackedLink.LinkText` | components/tracked-link.tsx:19-33 | string children are their own text; otherwise the text is a non-empty string child of one element, or the placeholder |
| `TrackedLink.EmptyTextOnlyFromEmptyString` | components/tracked-link.tsx:19-33 | an empty link text comes only from an empty string child |
| `TrackedLink.LinkTextExamples` | components/tracked-link.tsx:19-33 | an element wrapping text reports it; an empty string, nested elements or anything else report `[Complex content]` |
| `TrackedLink.RelativeStaticByName` | components/tracked-link.tsx:41-46 | a site-relative href is static exactly when it names an `.html` file or a static page folder |
| `TrackedLink.ExternalIsStatic` | components/tracked-link.tsx:41-46 | every `http://` and `https://` link is static |
| `TrackedLink.RoutedWithoutMarkers` | components/tracked-link.tsx:41-46 | a site-relative href without a dot and without the folder capitals is routed |
| `TrackedLink.SameHandlerEverywhere` | components/tracked-link.tsx:49-68 | both renderings keep the href and attach the same handler, forwarding name and index unchanged; the new-tab anchor is chosen exactly for static links |
| `TrackedLink.ClickDescribesLink` | components/tracked-link.tsx:17-35 | a click leaves a marker whose position, page id and title describe this link, without dwell time |

## Left out

- Sessions.WellOrdered: states increasing and distinct positive orders, not that they are exactly 1..N. The code breaks that (`Engine.ReturnToNewSessionLeavesGap`), so `Sessions.GapFree` is proved only on the paths listed above.
- The server-side branch of `extractUrlParams` (no `window`, fixed participant `00001`, lib/analytics.ts:20-26) is not modelled; the tracker always runs in the browser.
- Local storage holds typed values, not JSON text. The throws on malformed JSON (lib/analytics.ts:156 and :374) are not modelled; the one at :374 would leave the marker in place.
- `Engine.DwellTenths` computes integer tenths `(ms + 50) / 100` instead of floating-point seconds rounded with `Math.round`; the two agree on whole milliseconds.
- Each operation takes one calendar reading and one millisecond reading. The code reads the clock separately for a new session's start time and for the click time, so within one call the model gives both the same timestamp.
- `Timestamp.FormatLayout` and `Timestamp.FormatInjective` cover only years 1000-9999 and in-range calendar fields.
- Event-listener wiring (`components/analytics-tracker.tsx`) and the interleaving of unawaited calls at `await` points are not modelled; each exported operation is one atomic method and `isTracking` is a boolean field.
- `saveSessionToDatabase` is an append to the ghost outbox; its boolean result and log lines do not influence the tracker's state. The transport is a scripted reply list, not HTTP, and the response body is reduced to whether it can be read.
- The database is a map keyed by `task_id` (lib/prisma.ts is not part of this model), the request body an already-parsed value, and `NextResponse` only its status. Truthiness of `participant_id` and `task_id` is modelled for strings only.
- `loadSearchData` (a dynamic `require` of a data file, lib/search-data.ts:39-47) is not modelled.
- `SearchTabs.BasePathOfTopic` assumes a path without line terminators, which the lazy `.*?` of the pattern cannot cross.
- `SearchData.ParseInt` and `Classifier.PageNumber` read unbounded integers; JavaScript's loss of precision above 2^53 is not modelled.
- Rendering-only components (ai-overview, discussions-and-forums, search-page-template, the iframe page, the Cruise page config, `search-tabs-no-ai-mode`), class names and the `currentPage` highlight, `middleware.ts` and console logging are not part of this model.
