/** The state of the insight fetch coordinator (UpdatedServices/InsightService.swift) as a
    value, and one transition function per thing that can happen to it. The class in
    insight_service.dfy is proved to perform exactly these transitions.

    The serial `cache.queue` is the FIFO `queue` of pending tasks, run one at a time by
    `NextTask`. An issued HTTP GET is appended to `inFlight` (and to the append-only
    `fetchLog`); its response is the separate step `Delivery`, which, as the source does,
    dispatches the completion block onto the serial queue. */
module InsightServiceModel {
  import opened Wrappers
  import opened LoadingStates

  /** An insight identifier: the string form of its UUID. */
  type InsightID = string

  /** A failed transfer; only its description is used by the coordinator. */
  datatype TransferError = TransferError(localizedDescription: string)

  /** A cached insight and the time it was stored. */
  datatype CacheEntry<V> = CacheEntry(value: V, storedAt: int)

  /** The cache's staleness check: the entry is older than `maxAge` seconds. */
  predicate NeedsUpdate<V>(entry: CacheEntry<V>, now: int, maxAge: nat)
  {
    now - entry.storedAt > maxAge
  }

  /** A block waiting on the serial queue: a retrieval attempt, or the completion
      handler of a GET whose response has arrived. */
  datatype Task<V> =
    | Retrieve(key: InsightID)
    | Complete(key: InsightID, result: Result<V, TransferError>)

  datatype ServiceState<V> = ServiceState(
    insightCache: map<InsightID, CacheEntry<V>>,
    loadingState: map<InsightID, LoadingState>,
    queue: seq<Task<V>>,
    inFlight: seq<InsightID>,             // GETs issued whose response has not arrived
    fetchLog: seq<InsightID>,             // every GET ever issued, in order
    errorReports: seq<TransferError>,     // errors handed to the error service
    apiErrorReports: seq<TransferError>,  // errors handed to the API client's handler
    now: int)

  /** A freshly built service: the insight cache is the one handed in by the cache
      layer, whatever it holds; the loading-state table is new and empty. */
  function Initial<V>(cache: map<InsightID, CacheEntry<V>>, now: int): (st: ServiceState<V>)
    ensures st.insightCache == cache && st.now == now
    ensures forall k :: Stored(st.loadingState, k) == Idle
    ensures st.queue == [] && st.inFlight == [] && st.fetchLog == []
  {
    ServiceState(cache, map[], [], [], [], [], [], now)
  }

  // ---------------------------------------------------------------------------
  // Reads

  function EffectiveState<V>(st: ServiceState<V>, key: InsightID): LoadingState
  {
    Effective(st.loadingState, key, st.now)
  }

  /** `loadingState(for:)`'s effect on the state (the result is `EffectiveState`). */
  function LoadingStateRead<V>(st: ServiceState<V>, key: InsightID): (st': ServiceState<V>)
    ensures Stored(st'.loadingState, key) == EffectiveState(st, key)
    ensures st' == st.(loadingState := st'.loadingState)
    ensures !ErrorExpired(Stored(st.loadingState, key), st.now) ==> st' == st
  {
    st.(loadingState := AfterRead(st.loadingState, key, st.now))
  }

  /** What `insight(withID:)` returns: the cached insight, stale or not, if there is one. */
  function CachedInsight<V>(st: ServiceState<V>, key: InsightID): (r: Option<V>)
    ensures r.Some? <==> key in st.insightCache
    ensures r.Some? ==> r.value == st.insightCache[key].value
  {
    if key in st.insightCache then Some(st.insightCache[key].value) else None
  }

  /** `insight(withID:)` schedules a retrieval exactly when the entry is absent or stale. */
  predicate WantsRetrieval<V>(st: ServiceState<V>, key: InsightID, maxAge: nat)
  {
    key !in st.insightCache || NeedsUpdate(st.insightCache[key], st.now, maxAge)
  }

  function Enqueue<V>(st: ServiceState<V>, task: Task<V>): ServiceState<V>
  {
    st.(queue := st.queue + [task])
  }

  /** `insight(withID:)`'s effect on the state (the result is `CachedInsight`). */
  function InsightRead<V>(st: ServiceState<V>, key: InsightID, maxAge: nat): (st': ServiceState<V>)
    ensures key !in st.insightCache ==> st'.queue == st.queue + [Retrieve(key)]
    ensures key in st.insightCache && !NeedsUpdate(st.insightCache[key], st.now, maxAge) ==> st' == st
    ensures key in st.insightCache && NeedsUpdate(st.insightCache[key], st.now, maxAge) ==>
              st'.queue == st.queue + [Retrieve(key)]
    ensures st' == st.(queue := st'.queue)
  {
    if WantsRetrieval(st, key, maxAge) then Enqueue(st, Retrieve(key)) else st
  }

  // ---------------------------------------------------------------------------
  // Retrieval and completion

  /** The states in which `performRetrieval` goes ahead. */
  predicate MayStart(s: LoadingState)
  {
    !s.Loading? && !s.Error?
  }

  /** `performRetrieval`: read the effective state (with its cooldown side effect);
      if it is `Loading` or `Error`, stop; otherwise mark the key `Loading` and issue one GET. */
  function Retrieval<V>(st: ServiceState<V>, key: InsightID): (st': ServiceState<V>)
    ensures !MayStart(EffectiveState(st, key)) ==> st' == st
    ensures MayStart(EffectiveState(st, key)) ==>
              && st'.loadingState == st.loadingState[key := Loading]
              && st'.inFlight == st.inFlight + [key]
              && st'.fetchLog == st.fetchLog + [key]
              && st' == st.(loadingState := st'.loadingState, inFlight := st'.inFlight, fetchLog := st'.fetchLog)
  {
    var read := LoadingStateRead(st, key);
    if !MayStart(EffectiveState(st, key)) then
      read
    else
      read.(loadingState := read.loadingState[key := Loading],
            inFlight := read.inFlight + [key],
            fetchLog := read.fetchLog + [key])
  }

  /** The completion block of `performRetrieval`: on success the cache holds the insight
      and the state is `Finished(now)`; on failure the error is reported and the state is
      `Error(description, now)`, with the cache left alone. */
  function Completion<V>(st: ServiceState<V>, key: InsightID, result: Result<V, TransferError>): (st': ServiceState<V>)
    ensures result.Success? ==>
              && CachedInsight(st', key) == Some(result.value)
              && Stored(st'.loadingState, key) == Finished(st.now)
              && st'.errorReports == st.errorReports
    ensures result.Failure? ==>
              && st'.insightCache == st.insightCache
              && Stored(st'.loadingState, key) == Error(result.error.localizedDescription, st.now)
              && st'.errorReports == st.errorReports + [result.error]
    ensures forall k :: k != key ==> Stored(st'.loadingState, k) == Stored(st.loadingState, k)
    ensures forall k :: k != key ==> CachedInsight(st', k) == CachedInsight(st, k)
    ensures st' == st.(insightCache := st'.insightCache, loadingState := st'.loadingState, errorReports := st'.errorReports)
  {
    match result
    case Success(insight) =>
      st.(insightCache := st.insightCache[key := CacheEntry(insight, st.now)],
          loadingState := st.loadingState[key := Finished(st.now)])
    case Failure(error) =>
      st.(errorReports := st.errorReports + [error],
          loadingState := st.loadingState[key := Error(error.localizedDescription, st.now)])
  }

  /** The serial queue runs its oldest block. The block leaves the queue and nothing else
      is added to it; only a retrieval can issue a GET, and then only one, for its own key. */
  function NextTask<V>(st: ServiceState<V>): (st': ServiceState<V>)
    ensures st'.queue == if st.queue == [] then [] else st.queue[1..]
    ensures st'.now == st.now
    ensures st'.fetchLog == st.fetchLog ||
            (st.queue != [] && st.queue[0].Retrieve? && st'.fetchLog == st.fetchLog + [st.queue[0].key])
    ensures st.queue != [] && st.queue[0].Complete? ==> st'.inFlight == st.inFlight
  {
    if st.queue == [] then st
    else
      var popped := st.(queue := st.queue[1..]);
      match st.queue[0]
      case Retrieve(key) => Retrieval(popped, key)
      case Complete(key, result) => Completion(popped, key, result)
  }

  /** The response to the `index`-th outstanding GET arrives; its handler dispatches the
      completion block onto the serial queue. */
  function Delivery<V>(st: ServiceState<V>, index: nat, result: Result<V, TransferError>): (st': ServiceState<V>)
    requires index < |st.inFlight|
    ensures multiset(st'.inFlight) + multiset{st.inFlight[index]} == multiset(st.inFlight)
    ensures st'.queue == st.queue + [Complete(st.inFlight[index], result)]
    ensures st' == st.(inFlight := st'.inFlight, queue := st'.queue)
  {
    assert st.inFlight == st.inFlight[..index] + [st.inFlight[index]] + st.inFlight[index + 1..];
    st.(inFlight := st.inFlight[..index] + st.inFlight[index + 1..],
        queue := st.queue + [Complete(st.inFlight[index], result)])
  }

  function Advance<V>(st: ServiceState<V>, seconds: nat): ServiceState<V>
  {
    st.(now := st.now + seconds)
  }

  /** `update`: when the PATCH returns, whatever its outcome, a retrieval is scheduled. */
  function PatchCompletion<V>(st: ServiceState<V>, key: InsightID): (st': ServiceState<V>)
    ensures st'.queue == st.queue + [Retrieve(key)]
    ensures st' == st.(queue := st'.queue)
  {
    Enqueue(st, Retrieve(key))
  }

  /** `widgetableInsightIDs`: the identifiers handed to the callback. */
  function WidgetableIDs(response: Result<seq<InsightID>, TransferError>): (ids: seq<InsightID>)
    ensures response.Success? ==> ids == response.value
    ensures response.Failure? ==> ids == []
  {
    match response
    case Success(ids) => ids
    case Failure(_) => []
  }

  /** `widgetableInsightIDs`: a failure is handed to the API client's error handler. */
  function WidgetableCompletion<V>(st: ServiceState<V>, response: Result<seq<InsightID>, TransferError>): (st': ServiceState<V>)
    ensures st'.apiErrorReports == st.apiErrorReports + (if response.Failure? then [response.error] else [])
    ensures st' == st.(apiErrorReports := st'.apiErrorReports)
  {
    match response
    case Success(_) => st
    case Failure(error) => st.(apiErrorReports := st.apiErrorReports + [error])
  }

  // ---------------------------------------------------------------------------
  // The single-fetch-per-key invariant

  /** The keys of the completion blocks waiting on the queue, in order. */
  function Completions<V>(queue: seq<Task<V>>): seq<InsightID>
  {
    if queue == [] then []
    else (if queue[0].Complete? then [queue[0].key] else []) + Completions(queue[1..])
  }

  /** GETs for `key` issued and not yet completed: in flight, or answered and waiting
      on the queue. */
  function Outstanding<V>(st: ServiceState<V>, key: InsightID): nat
  {
    multiset(st.inFlight)[key] + multiset(Completions(st.queue))[key]
  }

  /** A key has one outstanding GET when its stored state is `Loading`, and none otherwise. */
  ghost predicate Valid<V>(st: ServiceState<V>)
  {
    forall k :: Outstanding(st, k) == (if Stored(st.loadingState, k) == Loading then 1 else 0)
  }

  lemma {:induction false} CompletionsAppend<V>(a: seq<Task<V>>, b: seq<Task<V>>)
    ensures Completions(a + b) == Completions(a) + Completions(b)
  {
    if a == [] {
      assert a + b == b;
    } else {
      assert (a + b)[0] == a[0] && (a + b)[1..] == a[1..] + b;
      CompletionsAppend(a[1..], b);
      assert Completions(a + b) == (if a[0].Complete? then [a[0].key] else []) + Completions(a[1..] + b);
    }
  }

  lemma CompletionsOfRetrieve<V>(queue: seq<Task<V>>, key: InsightID)
    ensures Completions(queue + [Retrieve(key)]) == Completions(queue)
  {
    CompletionsAppend(queue, [Retrieve(key)]);
  }

  /** The invariant depends only on the loading-state table, the queue and the GETs in flight. */
  lemma ValidDependsOnLoadingAndFetches<V>(st: ServiceState<V>, st': ServiceState<V>)
    requires Valid(st)
    requires st'.loadingState == st.loadingState && st'.queue == st.queue && st'.inFlight == st.inFlight
    ensures Valid(st')
  {
    forall k
      ensures Outstanding(st', k) == (if Stored(st'.loadingState, k) == Loading then 1 else 0)
    {
      assert Outstanding(st', k) == Outstanding(st, k);
    }
  }

  /** Whatever the cache layer already holds, a new service satisfies the invariant. */
  lemma ValidInitial<V>(cache: map<InsightID, CacheEntry<V>>, now: int)
    ensures Valid(Initial(cache, now))
  {
  }

  /** Scheduling a retrieval adds no outstanding GET. */
  lemma ValidAfterEnqueueRetrieve<V>(st: ServiceState<V>, key: InsightID)
    requires Valid(st)
    ensures Valid(Enqueue(st, Retrieve(key)))
  {
    CompletionsOfRetrieve(st.queue, key);
  }

  lemma ValidAfterInsightRead<V>(st: ServiceState<V>, key: InsightID, maxAge: nat)
    requires Valid(st)
    ensures Valid(InsightRead(st, key, maxAge))
  {
    if WantsRetrieval(st, key, maxAge) {
      ValidAfterEnqueueRetrieve(st, key);
    }
  }

  lemma ValidAfterLoadingStateRead<V>(st: ServiceState<V>, key: InsightID)
    requires Valid(st)
    ensures Valid(LoadingStateRead(st, key))
  {
    var st' := LoadingStateRead(st, key);
    forall k
      ensures Outstanding(st', k) == (if Stored(st'.loadingState, k) == Loading then 1 else 0)
    {
      assert Outstanding(st', k) == Outstanding(st, k);
    }
  }

  lemma ValidAfterRetrieval<V>(st: ServiceState<V>, key: InsightID)
    requires Valid(st)
    ensures Valid(Retrieval(st, key))
  {
    var st' := Retrieval(st, key);
    if MayStart(EffectiveState(st, key)) {
      assert Outstanding(st, key) == 0;
      forall k
        ensures Outstanding(st', k) == (if Stored(st'.loadingState, k) == Loading then 1 else 0)
      {
        assert multiset(st'.inFlight) == multiset(st.inFlight) + multiset{key};
        if k != key {
          assert Outstanding(st', k) == Outstanding(st, k);
        }
      }
    }
  }

  /** Taking a retrieval off the queue leaves the outstanding GETs alone. */
  lemma ValidAfterPopRetrieve<V>(st: ServiceState<V>)
    requires Valid(st)
    requires st.queue != [] && st.queue[0].Retrieve?
    ensures Valid(st.(queue := st.queue[1..]))
  {
    var popped := st.(queue := st.queue[1..]);
    forall k
      ensures Outstanding(popped, k) == (if Stored(popped.loadingState, k) == Loading then 1 else 0)
    {
      assert Completions(st.queue) == Completions(st.queue[1..]);
    }
  }

  /** The completion block at the head of the queue always finds the `Loading`
      state that its own retrieval set. */
  lemma CompletionFindsLoading<V>(st: ServiceState<V>)
    requires Valid(st)
    requires st.queue != [] && st.queue[0].Complete?
    ensures Stored(st.loadingState, st.queue[0].key) == Loading
  {
    var key := st.queue[0].key;
    assert Completions(st.queue) == [key] + Completions(st.queue[1..]);
    assert Outstanding(st, key) >= 1;
  }

  lemma ValidAfterNextTask<V>(st: ServiceState<V>)
    requires Valid(st)
    ensures Valid(NextTask(st))
  {
    if st.queue != [] {
      var popped := st.(queue := st.queue[1..]);
      match st.queue[0]
      case Retrieve(key) =>
        ValidAfterPopRetrieve(st);
        ValidAfterRetrieval(popped, key);
      case Complete(key, result) =>
        CompletionFindsLoading(st);
        var st' := Completion(popped, key, result);
        assert Completions(st.queue) == [key] + Completions(st.queue[1..]);
        forall k
          ensures Outstanding(st', k) == (if Stored(st'.loadingState, k) == Loading then 1 else 0)
        {
          assert Outstanding(st', k) == Outstanding(popped, k);
          if k != key {
            assert Outstanding(popped, k) == Outstanding(st, k);
          }
        }
    }
  }

  lemma ValidAfterDelivery<V>(st: ServiceState<V>, index: nat, result: Result<V, TransferError>)
    requires Valid(st)
    requires index < |st.inFlight|
    ensures Valid(Delivery(st, index, result))
  {
    var st' := Delivery(st, index, result);
    var key := st.inFlight[index];
    CompletionsAppend(st.queue, [Complete(key, result)]);
    assert Completions(st'.queue) == Completions(st.queue) + [key];
    forall k
      ensures Outstanding(st', k) == Outstanding(st, k)
    {
    }
  }

  // ---------------------------------------------------------------------------
  // Every reachable state keeps the invariant

  /** Something that can happen to the coordinator: a view asks for an insight or its
      loading state, the serial queue runs a block, a GET response arrives, time passes,
      a PATCH returns, the widgetable-ID list returns. */
  datatype Event<V> =
    | AskInsight(key: InsightID)
    | AskLoadingState(key: InsightID)
    | RunTask
    | Respond(index: nat, result: Result<V, TransferError>)
    | Wait(seconds: nat)
    | PatchReturned(key: InsightID)
    | WidgetableReturned(response: Result<seq<InsightID>, TransferError>)

  /** One event. A response to a GET that was never issued cannot arrive and is ignored. */
  function Apply<V>(st: ServiceState<V>, event: Event<V>, maxAge: nat): ServiceState<V>
  {
    match event
    case AskInsight(key) => InsightRead(st, key, maxAge)
    case AskLoadingState(key) => LoadingStateRead(st, key)
    case RunTask => NextTask(st)
    case Respond(index, result) => if index < |st.inFlight| then Delivery(st, index, result) else st
    case Wait(seconds) => Advance(st, seconds)
    case PatchReturned(key) => PatchCompletion(st, key)
    case WidgetableReturned(response) => WidgetableCompletion(st, response)
  }

  function Run<V>(st: ServiceState<V>, events: seq<Event<V>>, maxAge: nat): ServiceState<V>
    decreases |events|
  {
    if events == [] then st else Run(Apply(st, events[0], maxAge), events[1..], maxAge)
  }

  lemma ValidAfterApply<V>(st: ServiceState<V>, event: Event<V>, maxAge: nat)
    requires Valid(st)
    ensures Valid(Apply(st, event, maxAge))
  {
    match event
    case AskInsight(key) => ValidAfterInsightRead(st, key, maxAge);
    case AskLoadingState(key) => ValidAfterLoadingStateRead(st, key);
    case RunTask => ValidAfterNextTask(st);
    case Respond(index, result) =>
      if index < |st.inFlight| {
        ValidAfterDelivery(st, index, result);
      }
    case Wait(seconds) => ValidDependsOnLoadingAndFetches(st, Advance(st, seconds));
    case PatchReturned(key) => ValidAfterEnqueueRetrieve(st, key);
    case WidgetableReturned(response) => ValidDependsOnLoadingAndFetches(st, WidgetableCompletion(st, response));
  }

  lemma {:induction false} ValidAfterRun<V>(st: ServiceState<V>, events: seq<Event<V>>, maxAge: nat)
    requires Valid(st)
    ensures Valid(Run(st, events, maxAge))
    decreases |events|
  {
    if events != [] {
      ValidAfterApply(st, events[0], maxAge);
      ValidAfterRun(Apply(st, events[0], maxAge), events[1..], maxAge);
    }
  }

  /** Whatever the cache held at the start and whatever happens, no insight ever has two
      GETs outstanding, and one is outstanding exactly while its state is `Loading`. */
  lemma AtMostOneFetchPerKey<V>(cache: map<InsightID, CacheEntry<V>>, now: int, events: seq<Event<V>>, maxAge: nat, key: InsightID)
    ensures var st := Run(Initial(cache, now), events, maxAge);
            && Outstanding(st, key) <= 1
            && (Outstanding(st, key) == 1 <==> Stored(st.loadingState, key) == Loading)
  {
    ValidInitial(cache, now);
    ValidAfterRun(Initial(cache, now), events, maxAge);
    var st := Run(Initial(cache, now), events, maxAge);
    assert Outstanding(st, key) == (if Stored(st.loadingState, key) == Loading then 1 else 0);
  }

  // ---------------------------------------------------------------------------
  // Deduplication of queued retrievals

  function Copies<T>(x: T, n: nat): (s: seq<T>)
    ensures |s| == n
    ensures forall i :: 0 <= i < n ==> s[i] == x
  {
    if n == 0 then [] else [x] + Copies(x, n - 1)
  }

  /** The serial queue runs its `n` oldest blocks. */
  function RunTasks<V>(st: ServiceState<V>, n: nat): ServiceState<V>
    decreases n
  {
    if n == 0 then st else RunTasks(NextTask(st), n - 1)
  }

  /** While a key is `Loading`, queued retrievals of it change nothing but the queue. */
  lemma {:induction false} LoadingAbsorbsRetrievals<V>(st: ServiceState<V>, key: InsightID, n: nat, rest: seq<Task<V>>)
    requires Stored(st.loadingState, key) == Loading
    requires st.queue == Copies(Retrieve(key), n) + rest
    ensures RunTasks(st, n) == st.(queue := rest)
    decreases n
  {
    if n > 0 {
      assert st.queue[0] == Retrieve(key);
      assert st.queue[1..] == Copies(Retrieve(key), n - 1) + rest;
      var popped := st.(queue := st.queue[1..]);
      assert NextTask(st) == popped;
      LoadingAbsorbsRetrievals(popped, key, n - 1, rest);
    } else {
      assert st.queue == rest;
    }
  }

  /** `n` retrievals of one key queued back to back, with no completion between them,
      issue at most one GET: one exactly when the first finds the key free to start. */
  lemma {:induction false} QueuedRetrievalsFetchOnce<V>(st: ServiceState<V>, key: InsightID, n: nat, rest: seq<Task<V>>)
    requires st.queue == Copies(Retrieve(key), n) + rest
    ensures RunTasks(st, n).fetchLog ==
              st.fetchLog + (if n > 0 && MayStart(EffectiveState(st, key)) then [key] else [])
    ensures RunTasks(st, n).queue == rest
    decreases n
  {
    if n == 0 {
      assert st.queue == rest;
    } else {
      assert st.queue[0] == Retrieve(key);
      assert st.queue[1..] == Copies(Retrieve(key), n - 1) + rest;
      var popped := st.(queue := st.queue[1..]);
      var first := NextTask(st);
      assert first == Retrieval(popped, key);
      assert EffectiveState(popped, key) == EffectiveState(st, key);
      if MayStart(EffectiveState(st, key)) {
        LoadingAbsorbsRetrievals(first, key, n - 1, rest);
      } else {
        QueuedRetrievalsFetchOnce(first, key, n - 1, rest);
      }
    }
  }

  /** Two retrievals of one key run one after the other issue at most one GET. */
  lemma BackToBackRetrievalsFetchOnce<V>(st: ServiceState<V>, key: InsightID)
    ensures Retrieval(Retrieval(st, key), key).fetchLog ==
              st.fetchLog + (if MayStart(EffectiveState(st, key)) then [key] else [])
  {
  }

  /** A stored error decides whether a retrieval goes ahead: it does exactly when the
      error is more than `ERROR_COOLDOWN` seconds old. */
  lemma CooldownGovernsRetry<V>(st: ServiceState<V>, key: InsightID)
    requires Stored(st.loadingState, key).Error?
    ensures Retrieval(st, key).fetchLog ==
              st.fetchLog + (if st.now - Stored(st.loadingState, key).at > ERROR_COOLDOWN then [key] else [])
  {
  }

  // ---------------------------------------------------------------------------
  // Scenarios

  /** An insight not in the cache: the read returns nothing and schedules a retrieval,
      which issues one GET; once a successful response has been handled, the read returns
      the fetched insight and schedules nothing. */
  lemma FirstLoadScenario<V>(cache: map<InsightID, CacheEntry<V>>, key: InsightID, insight: V, now: int, maxAge: nat)
    requires key !in cache
    ensures var s0 := Initial(cache, now);
            var s1 := InsightRead(s0, key, maxAge);
            var s2 := NextTask(s1);
            var s3 := Delivery(s2, 0, Success(insight));
            var s4 := NextTask(s3);
            && CachedInsight(s0, key) == None
            && s1.queue == [Retrieve(key)]
            && s2.fetchLog == [key] && EffectiveState(s2, key) == Loading
            && EffectiveState(s4, key) == Finished(now)
            && CachedInsight(s4, key) == Some(insight)
            && InsightRead(s4, key, maxAge) == s4
  {
    var s0 := Initial(cache, now);
    var s1 := InsightRead(s0, key, maxAge);
    assert s1.queue == [Retrieve(key)];
    var s2 := NextTask(s1);
    assert s2.inFlight == [key];
  }

  /** A GET for an insight not in the cache that failed at time `t`: a retrieval `wait`
      seconds later issues a new GET exactly when `wait` exceeds the cooldown. */
  lemma FailedLoadScenario<V>(cache: map<InsightID, CacheEntry<V>>, key: InsightID, error: TransferError, t: int, wait: nat, maxAge: nat)
    requires key !in cache
    ensures var s0 := Initial(cache, t);
            var s2 := NextTask(InsightRead(s0, key, maxAge));
            var s4 := NextTask(Delivery(s2, 0, Failure(error)));
            var s5 := NextTask(InsightRead(Advance(s4, wait), key, maxAge));
            && EffectiveState(s4, key) == Error(error.localizedDescription, t)
            && s4.errorReports == [error]
            && CachedInsight(s4, key) == None
            && s5.fetchLog == [key] + (if wait > ERROR_COOLDOWN then [key] else [])
  {
    var s0 := Initial(cache, t);
    var s1 := InsightRead(s0, key, maxAge);
    assert s1.queue == [Retrieve(key)];
    var s2 := NextTask(s1);
    assert s2.inFlight == [key] && s2.queue == [];
    var s3 := Delivery(s2, 0, Failure(error));
    assert s3.queue == [Complete(key, Failure(error))];
    var s4 := NextTask(s3);
    assert s4.queue == [];
    var s5a := InsightRead(Advance(s4, wait), key, maxAge);
    assert s5a.queue == [Retrieve(key)];
    CooldownGovernsRetry(s5a.(queue := []), key);
  }
}
