/** The insight fetch coordinator (UpdatedServices/InsightService.swift) as a class whose
    fields the methods update in place. Each method is proved to perform the matching
    transition of InsightServiceModel. All but `CompleteRetrieval` are also proved to keep
    the single-fetch-per-key invariant; a completion keeps it only when it runs from the
    queue, which is how `RunNextTask` calls it. */
module InsightServices {
  import opened Wrappers
  import opened LoadingStates
  import opened InsightServiceModel

  class InsightService<V> {
    /** Maximum age, in seconds, of a cached insight that does not need an update. */
    const maxAge: nat

    var insightCache: map<InsightID, CacheEntry<V>>
    var loadingState: map<InsightID, LoadingState>
    var queue: seq<Task<V>>
    var inFlight: seq<InsightID>
    var fetchLog: seq<InsightID>
    var errorReports: seq<TransferError>
    var apiErrorReports: seq<TransferError>
    var now: int

    ghost function State(): ServiceState<V>
      reads this
    {
      ServiceState(insightCache, loadingState, queue, inFlight, fetchLog, errorReports, apiErrorReports, now)
    }

    ghost predicate Valid()
      reads this
    {
      InsightServiceModel.Valid(State())
    }

    /** `init`: the insight cache comes from the cache layer; the loading-state table
        is created empty. */
    constructor (cache: map<InsightID, CacheEntry<V>>, maxAge: nat, now: int)
      ensures this.maxAge == maxAge
      ensures State() == Initial(cache, now)
      ensures Valid()
    {
      this.maxAge := maxAge;
      insightCache, loadingState := cache, map[];
      queue, inFlight, fetchLog := [], [], [];
      errorReports, apiErrorReports := [], [];
      this.now := now;
      new;
      ValidInitial(cache, now);
    }

    /** `loadingState(for:)`: the stored state, with an error older than the cooldown
        reset to `Idle` in the table and reported as `Idle`. */
    method LoadingStateFor(insightID: InsightID) returns (s: LoadingState)
      requires Valid()
      modifies this
      ensures s == EffectiveState(old(State()), insightID)
      ensures State() == LoadingStateRead(old(State()), insightID)
      ensures Valid()
    {
      ValidAfterLoadingStateRead(State(), insightID);
      s := if insightID in loadingState then loadingState[insightID] else Idle;
      match s
      case Error(_, date) =>
        if date < now - ERROR_COOLDOWN {
          loadingState := loadingState[insightID := Idle];
          return Idle;
        }
      case _ =>
    }

    /** `insight(withID:)`: the cached insight, if any; a retrieval is scheduled when
        there is none or it needs an update. */
    method Insight(insightID: InsightID) returns (r: Option<V>)
      requires Valid()
      modifies this
      ensures r == CachedInsight(old(State()), insightID)
      ensures State() == InsightRead(old(State()), insightID, maxAge)
      ensures Valid()
    {
      if insightID !in insightCache {
        RetrieveInsight(insightID);
        return None;
      }
      var entry := insightCache[insightID];
      if NeedsUpdate(entry, now, maxAge) {
        RetrieveInsight(insightID);
      }
      return Some(entry.value);
    }

    /** `retrieveInsight(with:)`: puts a retrieval on the serial queue. */
    method RetrieveInsight(insightID: InsightID)
      requires Valid()
      modifies this
      ensures State() == Enqueue(old(State()), Retrieve(insightID))
      ensures Valid()
    {
      ValidAfterEnqueueRetrieve(State(), insightID);
      queue := queue + [Retrieve(insightID)];
    }

    /** `update`: when the PATCH returns, the insight is retrieved again whatever the
        outcome, and the outcome is passed on to the caller's callback. */
    method Update<R>(insightID: InsightID, patchResult: R) returns (callbackResult: R)
      requires Valid()
      modifies this
      ensures callbackResult == patchResult
      ensures State() == PatchCompletion(old(State()), insightID)
      ensures Valid()
    {
      RetrieveInsight(insightID);
      callbackResult := patchResult;
    }

    /** `widgetableInsightIDs`: the list on success; on failure an empty list, and the
        error goes to the API client's handler. */
    method WidgetableInsightIDs(response: Result<seq<InsightID>, TransferError>) returns (ids: seq<InsightID>)
      requires Valid()
      modifies this
      ensures ids == WidgetableIDs(response)
      ensures response.Failure? ==> ids == []
      ensures State() == WidgetableCompletion(old(State()), response)
      ensures Valid()
    {
      match response
      case Success(insightIDList) =>
        ids := insightIDList;
      case Failure(transferError) =>
        ids := [];
        apiErrorReports := apiErrorReports + [transferError];
    }

    /** `performRetrieval`: unless the key is `Loading` or in error cooldown, mark it
        `Loading` and issue one GET. */
    method PerformRetrieval(insightID: InsightID)
      requires Valid()
      modifies this
      ensures State() == Retrieval(old(State()), insightID)
      ensures Valid()
    {
      ValidAfterRetrieval(State(), insightID);
      var s := LoadingStateFor(insightID);
      match s
      case Loading => return;
      case Error(_, _) => return;
      case _ =>
      loadingState := loadingState[insightID := Loading];
      inFlight := inFlight + [insightID];
      fetchLog := fetchLog + [insightID];
    }

    /** The completion block of `performRetrieval`, run on the serial queue. */
    method CompleteRetrieval(insightID: InsightID, result: Result<V, TransferError>)
      modifies this
      ensures State() == Completion(old(State()), insightID, result)
    {
      match result
      case Success(insight) =>
        insightCache := insightCache[insightID := CacheEntry(insight, now)];
        loadingState := loadingState[insightID := Finished(now)];
      case Failure(error) =>
        errorReports := errorReports + [error];
        loadingState := loadingState[insightID := Error(error.localizedDescription, now)];
    }

    /** The serial queue runs its oldest block, if there is one. */
    method RunNextTask()
      requires Valid()
      modifies this
      ensures State() == NextTask(old(State()))
      ensures Valid()
    {
      ValidAfterNextTask(State());
      if queue == [] {
        return;
      }
      var task := queue[0];
      queue := queue[1..];
      match task
      case Retrieve(insightID) =>
        ValidAfterPopRetrieve(old(State()));
        PerformRetrieval(insightID);
      case Complete(insightID, result) =>
        CompleteRetrieval(insightID, result);
    }

    /** The response to the `index`-th outstanding GET arrives; the handler puts the
        completion block on the serial queue. */
    method ReceiveResponse(index: nat, result: Result<V, TransferError>)
      requires Valid()
      requires index < |inFlight|
      modifies this
      ensures State() == Delivery(old(State()), index, result)
      ensures Valid()
    {
      ValidAfterDelivery(State(), index, result);
      var insightID := inFlight[index];
      inFlight := inFlight[..index] + inFlight[index + 1..];
      queue := queue + [Complete(insightID, result)];
    }

    /** The clock moves forward. */
    method AdvanceClock(seconds: nat)
      requires Valid()
      modifies this
      ensures State() == Advance(old(State()), seconds)
      ensures Valid()
    {
      now := now + seconds;
    }
  }

  /** Two views asking for the same insight, absent from the cache, before the queue
      runs: both get nothing, running both queued retrievals issues a single GET, and the
      insight is then `Loading`. */
  method TwoRequestsOneFetch<V>(cache: map<InsightID, CacheEntry<V>>, insightID: InsightID, maxAge: nat, now: int)
      returns (a: Option<V>, b: Option<V>, fetches: seq<InsightID>, s: LoadingState)
    requires insightID !in cache
    ensures a == None && b == None
    ensures fetches == [insightID]
    ensures s == Loading
  {
    var service := new InsightService<V>(cache, maxAge, now);
    a := service.Insight(insightID);
    b := service.Insight(insightID);
    assert service.queue == [Retrieve(insightID), Retrieve(insightID)];
    service.RunNextTask();
    service.RunNextTask();
    fetches := service.fetchLog;
    s := service.LoadingStateFor(insightID);
  }
}
