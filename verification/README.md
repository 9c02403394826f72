# Seedsync client synchronization layer in Dafny

This project models three small client-side services of the seedsync web UI
as pure transition functions over explicit events, and proves what each
transition promises:

- **AutoQueue** (`autoqueue.dfy`): the autoqueue pattern store. It holds an
  ordered list of pattern strings mirrored from the server. `add` rejects a
  missing, blank or duplicate pattern locally, and `remove` rejects a
  pattern that is not in the list. Otherwise each sends a request, and the
  list changes only when a successful reply arrives. A connectivity change
  either empties the list or sends a fetch whose reply replaces it. The
  state is the list, a map of in-flight requests by id, and the next id. A
  pending remove carries the list as it was when `remove` was called.
  `AutoQueueRaces` (`autoqueue_races.dfy`) plays out interleavings of calls,
  replies and disconnects.
- **ViewFileFilter** (`view_file_filter.dfy`): the status filter. It holds
  the current view files and one selected status (None meaning "all"). It
  derives a filter record with five "enabled" and six "selected" flags.
  `filterStatus` is a guarded setter, and a file-list update republishes the
  record.
- **ServerStatusService** (`server_status.dfy`): the status-stream
  consumer. Each status event publishes a status record. A stream error
  publishes one "disconnected" status and schedules one reconnect after a
  constant 3000 ms. When the timer fires, a new stream is opened.

Helper modules: `Wrappers` holds `Option`, which stands for JavaScript
`null`. `Seqs` holds `findIndex`, Immutable.js `List.remove` and the
duplicate-free predicate. `JsStrings` holds JavaScript `trim` and the
whitespace it strips.

Remote replies, stream events and timers are input events. Requests,
publications, retries and stream openings are output effects.
`encodeURIComponent` is a function parameter `enc`, so the model depends
on no particular encoder.

## Model

| member | source | states |
|---|---|---|
| Seqs.FindIndex | src/angular/src/app/other/autoqueue.service.ts:78 | `findIndex` returns the first index whose element satisfies the test, or -1 exactly when no element does |
| Seqs.IndexOf | src/angular/src/app/other/autoqueue.service.ts:115 | `findIndex` under strict equality returns an index holding the value with no earlier occurrence, or -1 exactly when the value is absent |
| Seqs.ListRemove | src/angular/src/app/other/autoqueue.service.ts:131 | `List.remove(i)` drops the addressed element and shifts later ones down by one, where a negative index counts from the end; an index that addresses no element leaves the list unchanged |
| Seqs.ListRemoveMultiset | src/angular/src/app/other/autoqueue.service.ts:131 | removing by an in-range index takes exactly that one occurrence out of the multiset of patterns |
| Seqs.AppendFresh | src/angular/src/app/other/autoqueue.service.ts:92-98 | appending a pattern not already present keeps the list duplicate-free, and the pattern then occurs exactly once, at the end |
| Seqs.RemoveIndexOf | src/angular/src/app/other/autoqueue.service.ts:129-131 | in a duplicate-free list, removing at the index of `x` leaves a duplicate-free list one shorter that lacks `x` and keeps every other value |
| JsStrings.Trim | src/angular/src/app/other/autoqueue.service.ts:71 | `trim()` is empty exactly when every character is JavaScript whitespace; otherwise it neither starts nor ends with whitespace |
| AutoQueue.Initial | src/angular/src/app/other/autoqueue.service.ts:25-26 | the store starts with an empty list and nothing in flight |
| AutoQueue.PatternPathRoundTrip | src/angular/src/app/other/autoqueue.service.ts:84-86 | the request path is the fixed prefix followed by the pattern encoded twice: any decoder that inverts the encoder recovers the pattern after stripping the prefix |
| AutoQueue.Add | src/angular/src/app/other/autoqueue.service.ts:67-104 | a null or blank pattern is rejected with the empty-pattern notice, and a pattern already present is rejected with `Pattern '<p>' already exists.`; both send nothing and change nothing. Otherwise one add request is sent to the add prefix plus the twice-encoded pattern, and the list is unchanged until the reply |
| AutoQueue.Remove | src/angular/src/app/other/autoqueue.service.ts:111-124 | a pattern not in the list is rejected with `Pattern '<p>' not found.`, sends nothing and changes nothing. Otherwise one remove request is sent to the remove prefix plus the twice-encoded pattern, carrying the current list as its snapshot, and the list is unchanged until the reply |
| AutoQueue.ConfirmRemove | src/angular/src/app/other/autoqueue.service.ts:129-131 | a confirmed remove drops, from the list current at confirmation, the element at the pattern's first index in the call-time snapshot; the list is unchanged when that index is past its end |
| AutoQueue.OnFetchReply | src/angular/src/app/other/autoqueue.service.ts:42-60 | a successful fetch replaces the list with the fetched patterns in order; a failed fetch empties it |
| AutoQueue.OnAddReply | src/angular/src/app/other/autoqueue.service.ts:88-100 | a successful add reply publishes the current list with the pattern appended, with all earlier elements in their order; a failed reply publishes nothing |
| AutoQueue.OnRemoveReply | src/angular/src/app/other/autoqueue.service.ts:125-134 | a successful remove reply publishes the list with the snapshot-index element removed; a failed reply publishes nothing |
| AutoQueue.OnReply | src/angular/src/app/other/autoqueue.service.ts:44-134 | a reply to an unknown request changes nothing. Otherwise the request stops being pending, and the list becomes whatever its handler publishes. A reply that publishes nothing leaves the list as it was. Request ids stay fresh, and every pending remove's snapshot still holds its pattern |
| AutoQueue.OnConnectedChanged | src/angular/src/app/other/autoqueue.service.ts:140-148 | on disconnect the list becomes empty and is published at once, with in-flight requests untouched; on connect a fetch request is sent and the list is unchanged until its reply |
| AutoQueue.Step | src/angular/src/app/other/autoqueue.service.ts:67-148 | every event keeps the store well formed; calls never change the list, and only replies retire pending requests |
| AutoQueue.Run | src/angular/src/app/other/autoqueue.service.ts:67-148 | any sequence of events keeps the store well formed |
| AutoQueue.AddConfirmedKeepsUnique | src/angular/src/app/other/autoqueue.service.ts:77-98 | an add that passes validation and is confirmed with no other event in between keeps the list duplicate-free: the result is the old list plus the pattern, which occurs exactly once |
| AutoQueue.RemoveConfirmedDropsPattern | src/angular/src/app/other/autoqueue.service.ts:114-134 | a remove confirmed with no other event in between leaves a duplicate-free list one shorter that lacks the pattern and keeps every other pattern |
| AutoQueue.ReconnectFetchReplacesList | src/angular/src/app/other/autoqueue.service.ts:42-60 | a connect followed by the reply to its fetch leaves exactly the fetched patterns in order, or an empty list when the fetch fails, publishes that list and retires the fetch, whatever the list held before |
| AutoQueueRaces.ConcurrentRemovesKeepRemovedPattern | src/angular/src/app/other/autoqueue.service.ts:114-134 | as written: removing "a" then "c" from ["a","b","c"], with both confirmed, leaves ["b","c"] |
| AutoQueueRaces.ConcurrentRemovesDropWrongPattern | src/angular/src/app/other/autoqueue.service.ts:114-134 | as written: removing "a" then "b" from ["a","b","c"], with both confirmed, leaves ["b"], so "c" is removed instead of "b" |
| AutoQueueRaces.ConfirmRemoveRelookup | src/angular/src/app/other/autoqueue.service.ts:129-131 | corrected confirmation: drops the pattern's first occurrence in the list current at confirmation, and leaves a list without the pattern unchanged |
| AutoQueueRaces.RelookupRemovesPatternAfterAnyChange | src/angular/src/app/other/autoqueue.service.ts:129-131 | for any list current at confirmation, if it is duplicate-free, the corrected confirmation removes exactly the pattern and keeps the list duplicate-free |
| AutoQueueRaces.ConcurrentRemovesWithRelookup | src/angular/src/app/other/autoqueue.service.ts:129-131 | with the corrected confirmation, removing "a" then "c" leaves ["b"] |
| AutoQueueRaces.ConcurrentRemovesWithRelookupKeepOther | src/angular/src/app/other/autoqueue.service.ts:129-131 | with the corrected confirmation, removing "a" then "b" leaves ["c"] |
| AutoQueueRaces.RemoveConfirmedAfterDisconnect | src/angular/src/app/other/autoqueue.service.ts:125-134 | for any list holding the pattern: a remove call, then a disconnect, then the successful confirmation leaves the list empty and the request retired |
| AutoQueueRaces.AddConfirmedAfterDisconnect | src/angular/src/app/other/autoqueue.service.ts:88-98 | for any valid new pattern: an add call, then a disconnect, then the successful confirmation leaves exactly [pattern], because nothing guards against stale confirmations |
| AutoQueueRaces.AddCallRecordsPending | src/angular/src/app/other/autoqueue.service.ts:77-87 | an add call for a valid new pattern records one pending add under the next id and leaves the list alone |
| AutoQueueRaces.AddReplyAppends | src/angular/src/app/other/autoqueue.service.ts:88-98 | a successful reply to a pending add appends the pattern to the list current at that moment and retires the request |
| AutoQueueRaces.ConcurrentAddsDuplicate | src/angular/src/app/other/autoqueue.service.ts:77-98 | for any valid new pattern: two adds of it in flight at once both pass the duplicate check, and both confirmations leave the old list plus the pattern twice, so it is no longer duplicate-free |
| ViewFileFilter.CriteriaSemantics | src/angular/src/app/view-file-filter.service.ts:16-18 | with no status selected every file meets the criteria; with one selected, a file meets it exactly when its status is that status |
| ViewFileFilter.IsStatusEnabled | src/angular/src/app/view-file-filter.service.ts:75-78 | "all" is always enabled; a status is enabled exactly when some current file has it |
| ViewFileFilter.EnabledIffSomeFileMeetsPinnedCriteria | src/angular/src/app/view-file-filter.service.ts:75-78 | a status is enabled exactly when a criteria pinned to it lets at least one current file through |
| ViewFileFilter.FilterFlags | src/angular/src/app/view-file-filter.service.ts:80-110 | each enabled flag says whether some file has that status, and each selected flag whether the criteria equals that value. At most one selected flag is set, and exactly one when the criteria is "all" or one of the five named statuses |
| ViewFileFilter.Initial | src/angular/src/app/view-file-filter.service.ts:32-35 | the service starts with no files, "all" selected and no record published by it |
| ViewFileFilter.FilterStatus | src/angular/src/app/view-file-filter.service.ts:56-73 | selecting the already-selected status, or a status no file has, changes nothing and emits nothing. Otherwise the criteria is set, the recomputed record is published, and then a re-apply of the filters is requested |
| ViewFileFilter.OnFilesChanged | src/angular/src/app/view-file-filter.service.ts:39-42 | a file-list update replaces the files and publishes the recomputed record; the selected status is never changed, even when no file has it any more |
| ViewFileFilter.StepKeepsFresh | src/angular/src/app/view-file-filter.service.ts:56-65 | each event keeps the last published record equal to the record of the current files and criteria; each event publishes at most one record, and a re-apply request only comes after a publish |
| ViewFileFilter.RunKeepsFresh | src/angular/src/app/view-file-filter.service.ts:37-42 | once the service has published a record, after any further events the last published record is that of the current files and criteria |
| ViewFileFilter.RunFromInitial | src/angular/src/app/view-file-filter.service.ts:32-42 | from construction, the default record stays the last published one exactly as long as no file list has arrived; until then every `filterStatus` call is refused, so the state is the initial one and nothing is emitted. After the first file list, the last published record is always that of the current files and criteria |
| ViewFileFilter.SelectionOnlyEnabled | src/angular/src/app/view-file-filter.service.ts:56-65 | a single event changes the criteria only through `filterStatus`, and only to "all" or to a status some current file has |
| ViewFileFilter.RunCriteriaOnlyFromSelection | src/angular/src/app/view-file-filter.service.ts:56-65 | after any sequence of events the criteria is the initial one, or the status of some `filterStatus` event that was "all" or a status some file had when that event was handled |
| ServerStatusService.Start | src/angular/src/app/other/server-status.service.ts:48-60 | the initial status is up with no error message, the stream is opened, and no retry waits |
| ServerStatusService.Next | src/angular/src/app/other/server-status.service.ts:62-97 | on a live stream, a status event publishes `{up, errorMessage}` taken field for field from the payload's `up` and `error_msg`, every time. An error publishes exactly one disconnected status and then schedules exactly one retry after 3000 ms. A fired retry opens a new stream. No event removes a waiting retry except its own firing |
| ServerStatusService.RunInvariant | src/angular/src/app/other/server-status.service.ts:62-87 | after any events, a stream is live exactly when no retry waits; at most one retry waits, always 3000 ms; the current status is the one published last |
| ServerStatusService.RetriesAccounted | src/angular/src/app/other/server-status.service.ts:76-85 | over any run, retries scheduled plus those waiting at the start equal streams opened plus those still waiting: no retry is ever cancelled |
| ServerStatusService.RetryConstantAfterDown | src/angular/src/app/other/server-status.service.ts:76-85 | every retry in any run waits exactly 3000 ms, with no backoff growth, and comes immediately after a disconnected status is published |
| ServerStatusService.ClosedIgnoresAllButTimer | src/angular/src/app/other/server-status.service.ts:62-87 | after an error closed the stream, status events and further errors have no effect until the retry timer fires |
| ServerStatusService.ErrorThenRetryThenReconnect | src/angular/src/app/other/server-status.service.ts:62-87 | from a live stream, an error followed by any status events and errors and then the timer yields exactly one disconnected status, one retry and one new stream, in that order, ending live with nothing waiting and the disconnected status current |

## Left out

- HTTP transport, `EventSource`, `sendRequest` and the base web/stream service classes are not part of this model. Their replies and events are the input events of the transition functions.
- The connectivity notification that calls `onConnectedChanged` lives in an unshown base class. Coalescing of repeated connectivity reports is therefore not modelled, and `OnConnectedChanged` acts on every report it receives.
- The returned reaction observable being subscribed again by callers, RxJS subject semantics, `NgZone`, logging and the Angular provider/factory are not modelled.
- `JSON.parse` is not modelled: a fetch reply carries the fetched patterns as a list, and a status event carries a structured payload.
- Localization texts (`AUTOQUEUE_PATTERN_EMPTY`, `SERVER_DISCONNECTED`) are opaque constants named after their keys.
- `encodeURIComponent` is a function parameter; its escaping rules are not modelled.
- `ViewFile.Status` is defined in a file that is not part of this model. The five statuses the filter names are constructors, and any further status is `Other`.
- The default `ViewFileFilter` record published at construction is defined in a file that is not part of this model, so its flag values are unknown. `ViewFileFilter.Initial` represents it as "nothing published by the service yet", and `ViewFileFilter.RunFromInitial` states when it stops being the last published record.
- Registering the criteria with the file service, and the file service's own filtering, are outside this model. A re-apply request is an output effect.
- `remove(null)` is not modelled: `CallRemove` takes a string. `add(null)` is modelled as `None`.
- Timing is abstract: the retry delay is recorded on the scheduled retry, and the timer firing is an event.
- There is no teardown path in the status service, so there is no terminal state.

## Findings

| source | as written | input that shows it | evidently intended | confidence | as-written member | corrected member |
|---|---|---|---|---|---|---|
| src/angular/src/app/other/autoqueue.service.ts:129-131 | the confirmed remove computes its index on `currentPatterns`, the call-time snapshot, and removes that index from the list current at confirmation | list ["a","b","c"]: `remove("a")` and `remove("b")` are both issued, then both confirmed; the second confirmation uses index 1 on the two-element list ["b","c"], so "c" is removed and "b" stays, although the server removed "b" (with `remove("c")` instead, index 2 addresses nothing and "c" stays) | look the pattern up in `patterns`, the list current at confirmation read at line 129, and remove it only if it is found | medium, not executed | AutoQueueRaces.ConcurrentRemovesDropWrongPattern | AutoQueueRaces.ConfirmRemoveRelookup |

The store transition `AutoQueue.OnReply` keeps the as-written snapshot
index, because that is what the code does. The corrected confirmation is
`AutoQueueRaces.ConfirmRemoveRelookup`, and
`AutoQueueRaces.RelookupRemovesPatternAfterAnyChange` proves it removes the
pattern from whatever list is current at confirmation.

The code of these three files does not recompute the remove index at
confirmation time. It does not discard confirmations that arrive after a
reset, and it does not coalesce duplicate connectivity reports. The model
follows the code.
