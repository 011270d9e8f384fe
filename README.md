# Insight fetch coordination and beta-request bucketing, modelled in Dafny

This project models two parts of TelemetryViewer, a dashboard client for a remote
analytics service.

**The insight service** (`UpdatedServices/InsightService.swift`) sits between the views and
the API client. It keeps two keyed tables: a cache of insights and a per-insight loading
state (`idle`, `loading`, `finished(date)`, `error(message, date)`). Views read through it:

- `insight(withID:)` returns the cached insight at once. It schedules a retrieval on the
  cache's serial queue when the insight is absent or stale.
- `loadingState(for:)` reports the state. An error older than 60 seconds is reset to `idle`
  on the way.

When a retrieval runs, it refuses to start while the insight is `loading` or in error
cooldown. Otherwise it marks the insight `loading` and issues one GET. The GET's completion
is queued on the same serial queue. A success writes the cache and `finished(now)`. A failure
reports the error and writes `error(description, now)`. `update` re-queues a retrieval when
its PATCH returns. `widgetableInsightIDs` hands `[]` to its callback on failure.

**The beta-request screens** (`Shared/Administration/BetaRequestsList.swift`) do three things:

- split the list into unfulfilled, email-sent and fulfilled requests;
- look up the request a detail view shows;
- build the update body of "Mark as Fulfilled / Not Fulfilled".

Files:

- `wrappers.dfy`: `Option` and `Result`.
- `loading_states.dfy` (module `LoadingStates`): the loading state and the 60-second
  error-cooldown rule.
- `insight_service_model.dfy` (module `InsightServiceModel`): the coordinator's whole state
  as a value. It has one transition function per event and the invariant "a key has exactly
  one outstanding GET while it is `loading`, and none otherwise". It proves that every
  transition and every event trace keeps that invariant. It also proves the deduplication,
  cooldown and completion properties, and two end-to-end scenarios.
- `insight_service.dfy` (module `InsightServices`): class `InsightService`, whose fields
  are the cache, the loading-state table, the serial queue, the outstanding GETs, the fetch
  log, the two error-report logs and the clock. `LoadingStateFor`, `Insight`,
  `RetrieveInsight`, `Update`, `WidgetableInsightIDs` and `PerformRetrieval` mirror functions
  of the Swift class. `CompleteRetrieval` is the completion closure of `performRetrieval`.
  `ReceiveResponse` is the GET's response handler, `RunNextTask` is the serial queue running
  a block, and `AdvanceClock` is time passing. Each method is proved to perform exactly the
  matching transition. All but `CompleteRetrieval` are also proved to keep the invariant.
  A completion alone does not keep it. It keeps it when it runs from the queue, because the
  completion finds its key `loading` (`CompletionFindsLoading`). `RunNextTask` runs it that
  way.
- `beta_requests.dfy` (module `BetaRequests`): the buckets, the lookup and the toggle, as
  functions over sequences with lemmas.

Modelling choices:

- Time is an integer number of seconds. The clock is a field, moved forward by
  `AdvanceClock`.
- The serial `cache.queue` is a FIFO `queue` of tasks. `RunNextTask` runs its oldest block.
- An issued GET is appended to `inFlight` and to the append-only `fetchLog`. Its response is
  a separate step (`ReceiveResponse`, with the result as a parameter). That step queues the
  completion block, as the Swift handler does with `cache.queue.async`.
- The error service and the API client's error handler are logs of reported errors.
- The cache's `needsUpdate(forKey:)` is taken to be a time-to-live check. A cached entry
  records when it was stored. It needs an update when it is more than `maxAge` seconds old,
  where `maxAge` is a constructor parameter.
- An insight identifier is the string form of its UUID. The insight value is a type
  parameter.

Two behaviours one might expect from such a service are not what the code does, and the
model follows the code:

- One might expect a read to consult the loading state before scheduling a fetch. In the
  code, `insight(withID:)` always queues a retrieval when the entry is absent or stale, and
  the guard is applied later, in `performRetrieval` (lines 47-58 and 116-121).
- One might expect a re-fetch only after a successful create or update, and the key's
  removal on delete. In the code, `update` re-queues a retrieval whether the PATCH succeeded
  or failed, and `create` and `delete` touch neither table (lines 66-90).

## Model

| member | source | states |
|---|---|---|
| LoadingStates.Effective | UpdatedServices/InsightService.swift:30-45 | A key never written reads `Idle`. The result is `Idle` exactly when the stored state is `Idle` or an error more than 60 s old. Any other result is the stored state unchanged: `Loading` iff stored `Loading`, and a reported error is at most 60 s old. |
| LoadingStates.AfterRead | UpdatedServices/InsightService.swift:35-39 | Reading writes only the key read. Afterwards the table holds exactly the reported state. When the stored state is not an expired error, the table is unchanged. |
| LoadingStates.ReadIsIdempotent | UpdatedServices/InsightService.swift:30-45 | A second read at the same instant reports the same state and writes nothing. |
| LoadingStates.ExpiryIsPermanent | UpdatedServices/InsightService.swift:36 | Once an error reads as `Idle`, it reads as `Idle` at every later time. |
| InsightServiceModel.LoadingStateRead | UpdatedServices/InsightService.swift:30-45 | The read changes only the loading-state table. The key then stores what was reported. Nothing changes unless the stored state is an expired error. |
| InsightServiceModel.InsightRead | UpdatedServices/InsightService.swift:47-58 | No cached entry: a retrieval is queued. A fresh entry: nothing changes. A stale entry: a retrieval is queued. Nothing but the queue ever changes. |
| InsightServiceModel.Retrieval | UpdatedServices/InsightService.swift:115-127 | If the effective state is `Loading` or `Error`, nothing changes at all. Otherwise the key becomes `Loading` and exactly one GET for it is issued. The cache, the queue and the error logs are untouched. |
| InsightServiceModel.Completion | UpdatedServices/InsightService.swift:128-136 | Success: the cache holds the fetched insight, the state is `Finished(now)`, and no error is reported. Failure: the cache is unchanged, the state is `Error(description, now)`, and the error is appended to the error service's log. Other keys keep their cache entries and states. |
| InsightServiceModel.Delivery | UpdatedServices/InsightService.swift:127-128 | A GET's response removes exactly that GET from `inFlight` and queues its completion block. |
| InsightServiceModel.ValidAfterRetrieval | UpdatedServices/InsightService.swift:116-127 | A retrieval keeps the invariant: one outstanding GET per `Loading` key, none for others. |
| InsightServiceModel.ValidAfterNextTask | UpdatedServices/InsightService.swift:115-139 | Running the queue's next block, whether a retrieval or a completion, keeps the invariant. |
| InsightServiceModel.ValidAfterDelivery | UpdatedServices/InsightService.swift:127-128 | A response arriving keeps the invariant. |
| InsightServiceModel.ValidAfterLoadingStateRead | UpdatedServices/InsightService.swift:35-39 | The cooldown reset keeps the invariant. |
| InsightServiceModel.ValidAfterInsightRead | UpdatedServices/InsightService.swift:47-58 | Reading an insight keeps the invariant. |
| InsightServiceModel.ValidAfterEnqueueRetrieve | UpdatedServices/InsightService.swift:60-64 | Queuing a retrieval keeps the invariant. |
| InsightServiceModel.ValidAfterPopRetrieve | UpdatedServices/InsightService.swift:61-63 | Taking a retrieval off the queue keeps the invariant. |
| InsightServiceModel.ValidAfterApply | UpdatedServices/InsightService.swift:30-139 | Every kind of event keeps the invariant. |
| InsightServiceModel.ValidAfterRun | UpdatedServices/InsightService.swift:30-139 | Every trace of events keeps the invariant. |
| InsightServiceModel.ValidDependsOnLoadingAndFetches | UpdatedServices/InsightService.swift:99-111 | Steps that touch only the clock, the cache or the error logs, such as time passing or the widget-list call, keep the invariant. |
| InsightServiceModel.ValidInitial | UpdatedServices/InsightService.swift:16-24 | A new service satisfies the invariant, whatever the injected insight cache holds. |
| InsightServiceModel.AtMostOneFetchPerKey | UpdatedServices/InsightService.swift:115-139 | From a new service over any injected insight cache, after any trace of reads, queue steps, responses, clock ticks, PATCH returns and widget-list returns, no insight has two GETs outstanding. One is outstanding exactly while its state is `Loading`. |
| InsightServiceModel.Initial | UpdatedServices/InsightService.swift:13-24 | The insight cache is the injected one. Every key reads `Idle`, because the loading-state table is new. Nothing is queued, in flight or fetched yet. |
| InsightServiceModel.CachedInsight | UpdatedServices/InsightService.swift:47-58 | `insight(withID:)` returns a value exactly when the cache has an entry, stale or not, and the value is that entry's. |
| InsightServiceModel.NextTask | UpdatedServices/InsightService.swift:61-63 | The serial queue's oldest block leaves the queue and no block is added. The clock does not move. Only a retrieval can issue a GET, at most one and for its own key. A completion leaves `inFlight` alone. |
| InsightServiceModel.PatchCompletion | UpdatedServices/InsightService.swift:77-78 | When the PATCH returns, one retrieval of the patched insight is appended to the queue, and nothing else changes. |
| InsightServiceModel.WidgetableIDs | UpdatedServices/InsightService.swift:102-109 | The callback receives the server's list on success and `[]` on failure. |
| InsightServiceModel.WidgetableCompletion | UpdatedServices/InsightService.swift:102-109 | A failure is appended to the API client's error log, a success logs nothing, and nothing else changes. |
| InsightServices.TwoRequestsOneFetch | UpdatedServices/InsightService.swift:47-127 | Two reads of an insight not in the cache both return nothing. Running the two queued retrievals issues exactly one GET, and the insight is then `Loading`. |
| InsightServiceModel.CompletionFindsLoading | UpdatedServices/InsightService.swift:128-136 | A completion block at the head of the queue finds its key in the `Loading` state its own retrieval set. |
| InsightServiceModel.QueuedRetrievalsFetchOnce | UpdatedServices/InsightService.swift:116-127 | `n` retrievals of one key queued back to back issue one GET if the first finds the key free to start, and none otherwise. The queue is left with what followed them. |
| InsightServiceModel.LoadingAbsorbsRetrievals | UpdatedServices/InsightService.swift:116-118 | While a key is `Loading`, queued retrievals of it change nothing but the queue. |
| InsightServiceModel.BackToBackRetrievalsFetchOnce | UpdatedServices/InsightService.swift:116-127 | Two retrievals of one key with nothing between them issue at most one GET. |
| InsightServiceModel.CooldownGovernsRetry | UpdatedServices/InsightService.swift:33-39 | Given a stored error, a retrieval issues a GET exactly when the error is more than 60 s old. |
| InsightServiceModel.FirstLoadScenario | UpdatedServices/InsightService.swift:47-136 | Absent insight: the read returns nothing and queues a retrieval, which issues one GET and sets `Loading`. After a successful response is handled, the state is `Finished(now)`, the read returns the insight, and it queues nothing. |
| InsightServiceModel.FailedLoadScenario | UpdatedServices/InsightService.swift:30-136 | After a failed GET at time `t`, the state is `Error(description, t)` and the error is reported. Another read `w` seconds later issues a second GET exactly when `w > 60`. |
| InsightServices.InsightService.constructor | UpdatedServices/InsightService.swift:13-24 | The insight cache is the one handed in. The loading-state table, the queue and the logs start empty. The invariant holds. |
| InsightServices.InsightService.LoadingStateFor | UpdatedServices/InsightService.swift:30-45 | Returns the effective state and updates the table as `LoadingStateRead`. Keeps the invariant. |
| InsightServices.InsightService.Insight | UpdatedServices/InsightService.swift:47-58 | Returns the cached insight, possibly stale, or none, and queues as `InsightRead`. Keeps the invariant. |
| InsightServices.InsightService.RetrieveInsight | UpdatedServices/InsightService.swift:60-64 | Appends one retrieval to the serial queue and changes nothing else. |
| InsightServices.InsightService.Update | UpdatedServices/InsightService.swift:74-82 | Whatever the PATCH outcome, a retrieval of the patched insight is queued. The callback receives the outcome unchanged. |
| InsightServices.InsightService.WidgetableInsightIDs | UpdatedServices/InsightService.swift:99-111 | On success the callback gets the server's list. On failure it gets `[]` and the error goes to the API client's handler. Nothing else changes. |
| InsightServices.InsightService.PerformRetrieval | UpdatedServices/InsightService.swift:115-127 | Performs `Retrieval`: no GET while `Loading` or in error cooldown, else `Loading` and one GET. Keeps the invariant. |
| InsightServices.InsightService.CompleteRetrieval | UpdatedServices/InsightService.swift:128-136 | Performs `Completion`: success writes cache and `Finished(now)`; failure reports the error and writes `Error(description, now)`. |
| InsightServices.InsightService.RunNextTask | UpdatedServices/InsightService.swift:61-63 | Runs the oldest queued block, as `NextTask`. Keeps the invariant. |
| InsightServices.InsightService.ReceiveResponse | UpdatedServices/InsightService.swift:127-128 | A GET's response queues its completion block, as `Delivery`. Keeps the invariant. |
| InsightServices.InsightService.AdvanceClock | UpdatedServices/InsightService.swift:36 | The clock moves forward and nothing else changes. |
| BetaRequests.Filter | Shared/Administration/BetaRequestsList.swift:105-107 | The result holds exactly the elements satisfying the condition, and no more elements than the input. |
| BetaRequests.Unfulfilled | Shared/Administration/BetaRequestsList.swift:105 | A request is in the bucket iff it is in the list, not fulfilled and has no `sentAt`. |
| BetaRequests.EmailSent | Shared/Administration/BetaRequestsList.swift:106 | A request is in the bucket iff it is in the list, not fulfilled and has a `sentAt`. |
| BetaRequests.Fulfilled | Shared/Administration/BetaRequestsList.swift:107 | A request is in the bucket iff it is in the list and fulfilled. |
| BetaRequests.ExactlyOneBucket | Shared/Administration/BetaRequestsList.swift:105-107 | Every request meets exactly one of the three bucket conditions. |
| BetaRequests.FilterPartition | Shared/Administration/BetaRequestsList.swift:105-107 | Filtering by three conditions, of which every element meets exactly one, yields three lists that together hold each element exactly as often as the input. |
| BetaRequests.BucketsCoverList | Shared/Administration/BetaRequestsList.swift:105-107 | The three buckets together hold each request exactly as often as the list does. |
| BetaRequests.BucketsPartition | Shared/Administration/BetaRequestsList.swift:105-114 | The buckets are pairwise disjoint and together make up the list. The counts shown add up to the number of requests. |
| BetaRequests.FilterIsSubsequence | Shared/Administration/BetaRequestsList.swift:105-107 | A filtered list is a subsequence of the original: it keeps the original order. |
| BetaRequests.FilterConcat | Shared/Administration/BetaRequestsList.swift:105-107 | Filtering a concatenation gives the concatenation of the filtered parts. |
| BetaRequests.BucketsKeepOrder | Shared/Administration/BetaRequestsList.swift:123-144 | Each bucket lists its requests in the list's order. |
| BetaRequests.BucketsSplitWithList | Shared/Administration/BetaRequestsList.swift:105-107 | Splitting the list splits every bucket at the matching point, so relative order within a bucket is the list's. |
| BetaRequests.FirstIndex | Shared/Administration/BetaRequestsList.swift:19 | Returns the position of the first request with the selected id, or none exactly when no request has it. |
| BetaRequests.Lookup | Shared/Administration/BetaRequestsList.swift:19 | Returns a request of the list that has the selected id, with no earlier request having it. Returns none exactly when no request has that id. |
| BetaRequests.NoSelectionFindsNothing | Shared/Administration/BetaRequestsList.swift:12-19 | With no selected id (`nil`), no request is found. |
| BetaRequests.NavigationTitle | Shared/Administration/BetaRequestsList.swift:86 | The found request's email, or "No Selection" when no request has the id. |
| BetaRequests.ToggleFulfilled | Shared/Administration/BetaRequestsList.swift:67-68 | The update body negates `isFulfilled` and carries `sentAt` over unchanged. |
| BetaRequests.ToggleFlipsOnlyFulfilled | Shared/Administration/BetaRequestsList.swift:68 | Applying the body changes only the fulfilled flag. Toggling twice restores the request. |
| BetaRequests.ToggleMovesBucket | Shared/Administration/BetaRequestsList.swift:67-68 | After the toggle is applied, a fulfilled request lands in the unfulfilled or email-sent bucket as its `sentAt` decides, and any other request lands in the fulfilled bucket. Whether "Send Email Now" is offered does not change. |
| BetaRequests.SendEmailNowFollowsBuckets | Shared/Administration/BetaRequestsList.swift:48 | "Send Email Now" is offered for every unfulfilled request and never for an email-sent one. It is offered exactly when `sentAt` is nil. |

## Left out

- `create` and `delete` (UpdatedServices/InsightService.swift:66-72, 84-90): they only pass the API client's result to the callback and touch neither table, so they have no state to model.
- The PATCH of `update`, the GET of `widgetableInsightIDs` and the URL building of every call are not modelled. `Update` takes the PATCH's outcome as a parameter, and `WidgetableInsightIDs` takes the GET's response as a parameter. Each models what happens when its request returns. Neither request is recorded in `inFlight` or `fetchLog`, which hold only the GETs of `performRetrieval`.
- The Combine `objectWillChange` forwarding and main-queue delivery (lines 26-27): notification plumbing with no effect on the tables.
- Threads and `[weak self]` / `[unowned self]` lifetimes: tasks run one at a time from a FIFO, and the service is never deallocated while blocks are pending.
- The API client (requests, JSON coding, `handleError`), the error service and `TransferError`'s taxonomy: foreign collaborators. A GET is a recorded request plus a later response step, an error is a value carrying its description, and reporting appends to a log.
- InsightServices.InsightService.constructor: the cache layer's serial queue is shared, and blocks that other services put on it are not modelled. The queue starts empty.
- The loading-state table is itself a `Cache` (line 16), whose code is not part of this model. It is modelled as a map that keeps every entry until this class overwrites it. `AtMostOneFetchPerKey` rests on that assumption. If the table dropped a `loading` entry while its GET was outstanding, a second GET could be issued.
- The cache layer's internals and `needsUpdate(forKey:)`: not part of this model. They are replaced by a stored timestamp and a `maxAge` time-to-live.
- `Date` arithmetic: whole seconds.
- InsightServiceModel.Apply: a response to a GET that was never issued cannot arrive, so such an event leaves the state unchanged.
- `APIClient/DTOs/InsightInfo.swift` and the other view files (rendering, timers, clipboard, number formatting), and in BetaRequestsList.swift the API calls `sendEmail`, `update`, `delete` and `getBetaRequests` with the one-minute refresh timer: presentation code or calls into the API client.
- BetaRequests.Updated: how the server applies an update body is not shown. The model writes the body's two fields over the request's, and uses this only in the toggle lemmas.
