/**
 * The worker threads of a runtime, interleaved in every possible way. Each command runs in a thread of its own:
 * validate, look up, execute, store. The cache lock is held only inside one lookup and inside one store.
 */
module Workers {
  import opened Wrappers
  import opened Protocol
  import opened RequestCache

  datatype Origin = Rejected | Replayed | Fresh

  /** How far a worker has come. */
  datatype Phase =
    | Received
    | Admitted
    | ClockRead(now: int)  // the lookup's clock was read, the lock is not taken yet
    | Executing
    | Executed(response: Response)
    | Answered(response: Response, origin: Origin)

  datatype Worker = Worker(request: Request, phase: Phase)

  datatype State = State(cache: Cache, workers: seq<Worker>)

  /** One atomic step. `pruned` is the map right after the prune inside the step. */
  datatype Event =
    | Spawned(request: Request)
    | Validated(worker: nat, now: int)
    | ReadClock(worker: nat, now: int)
    | SkippedLookup(worker: nat)
    | LookedUp(worker: nat, pruned: Cache)
    | Ran(worker: nat, response: Response)
    | Stored(worker: nat, now: int, pruned: Cache)

  function Advance(s: State, w: nat, phase: Phase): State
    requires w < |s.workers|
  {
    s.(workers := s.workers[w := s.workers[w].(phase := phase)])
  }

  /** The worker that takes the step exists and is in a phase that allows it. */
  predicate Enabled(s: State, e: Event) {
    e.Spawned? ||
    (e.worker < |s.workers| &&
     var worker := s.workers[e.worker];
     match e
     case Validated(_, _) => worker.phase.Received?
     case ReadClock(_, _) => worker.phase.Admitted? && IdempotencyKey(worker.request).Some?
     case SkippedLookup(_) => worker.phase.Admitted? && IdempotencyKey(worker.request).None?
     case LookedUp(_, _) => worker.phase.ClockRead? && IdempotencyKey(worker.request).Some?
     case Ran(_, _) => worker.phase.Executing?
     case Stored(_, _, _) => worker.phase.Executed?)
  }

  ghost predicate Next(sessionId: string, s: State, e: Event, s': State) {
    Enabled(s, e) &&
    match e
    case Spawned(request) => s' == s.(workers := s.workers + [Worker(request, Received)])
    case Validated(w, now) =>
      (match ValidateCommandMetadata(s.workers[w].request, sessionId, now)
       case Some(error) => s' == Advance(s, w, Answered(error, Rejected))
       case None => s' == Advance(s, w, Admitted))
    case ReadClock(w, now) => s' == Advance(s, w, ClockRead(now))
    case SkippedLookup(w) => s' == Advance(s, w, Executing)
    case LookedUp(w, pruned) =>
      && LookupEffect(s.cache, s.workers[w].request, s.workers[w].phase.now, pruned)
      && (match CachedAnswer(pruned, s.workers[w].request)
          case Some(cached) => s' == Advance(s, w, Answered(cached, Replayed)).(cache := pruned)
          case None => s' == Advance(s, w, Executing).(cache := pruned))
    case Ran(w, response) => s' == Advance(s, w, Executed(response))
    case Stored(w, now, pruned) =>
      var response := s.workers[w].phase.response;
      && StoreEffect(s.cache, s.workers[w].request, response, now, pruned, s'.cache)
      && s' == Advance(s, w, Answered(response, Fresh)).(cache := s'.cache)
  }

  /** The threads and the map they share, advanced one atomic step at a time. */
  class RequestPipeline {
    const sessionId: string
    const cache: ProcessedRequests
    var workers: seq<Worker>

    ghost function View(): State
      reads this, cache
    {
      State(cache.entries, workers)
    }

    constructor (sessionId: string)
      ensures View() == State(map[], []) && this.sessionId == sessionId
      ensures fresh(cache)
    {
      this.sessionId := sessionId;
      cache := new ProcessedRequests();
      workers := [];
    }

    method Spawn(request: Request)
      modifies this
      ensures Next(sessionId, old(View()), Spawned(request), View())
    {
      workers := workers + [Worker(request, Received)];
    }

    method Validate(w: nat, now: int)
      requires Enabled(View(), Validated(w, now))
      modifies this
      ensures Next(sessionId, old(View()), Validated(w, now), View())
    {
      var rejection := ValidateCommandMetadata(workers[w].request, sessionId, now);
      if rejection.Some? {
        workers := workers[w := workers[w].(phase := Answered(rejection.value, Rejected))];
      } else {
        workers := workers[w := workers[w].(phase := Admitted)];
      }
    }

    method BeginLookup(w: nat, now: int)
      requires w < |workers| && workers[w].phase.Admitted?
      modifies this
      ensures Next(sessionId, old(View()), if IdempotencyKey(old(workers)[w].request).Some? then ReadClock(w, now) else SkippedLookup(w), View())
    {
      if IdempotencyKey(workers[w].request).Some? {
        workers := workers[w := workers[w].(phase := ClockRead(now))];
      } else {
        workers := workers[w := workers[w].(phase := Executing)];
      }
    }

    method LookUp(w: nat)
      requires Enabled(View(), LookedUp(w, map[]))
      modifies this, cache
      ensures Next(sessionId, old(View()), LookedUp(w, cache.entries), View())
    {
      var answer := cache.ReplayCachedResponse(workers[w].request, workers[w].phase.now);
      if answer.Some? {
        workers := workers[w := workers[w].(phase := Answered(answer.value, Replayed))];
      } else {
        workers := workers[w := workers[w].(phase := Executing)];
      }
    }

    /** The command's own thread was joined; a panic arrives here as an error response. */
    method Join(w: nat, response: Response)
      requires Enabled(View(), Ran(w, response))
      modifies this
      ensures Next(sessionId, old(View()), Ran(w, response), View())
    {
      workers := workers[w := workers[w].(phase := Executed(response))];
    }

    method Store(w: nat, now: int) returns (ghost pruned: Cache)
      requires Enabled(View(), Stored(w, now, map[]))
      modifies this, cache
      ensures Next(sessionId, old(View()), Stored(w, now, pruned), View())
    {
      var response := workers[w].phase.response;
      pruned := cache.RememberProcessedResponse(workers[w].request, response, now);
      workers := workers[w := workers[w].(phase := Answered(response, Fresh))];
    }
  }

  // ----- Runs -----

  /** An execution of any number of workers in any interleaving: states[i] --events[i]--> states[i + 1]. */
  datatype Run = Run(sessionId: string, states: seq<State>, events: seq<Event>)

  ghost predicate IsRun(r: Run) {
    && |r.states| == |r.events| + 1
    && r.states[0] == State(map[], [])
    && forall i :: 0 <= i < |r.events| ==> Next(r.sessionId, r.states[i], r.events[i], r.states[i + 1])
  }

  /** The request of worker w as of state i. */
  function RequestAt(r: Run, i: nat, w: nat): Request
    requires i < |r.states| && w < |r.states[i].workers|
  {
    r.states[i].workers[w].request
  }

  /** The idempotency key under which event i touches the cache. */
  ghost function KeyOf(r: Run, i: nat): Option<string>
    requires IsRun(r) && i < |r.events|
  {
    if r.events[i].Spawned? then None
    else
      assert Next(r.sessionId, r.states[i], r.events[i], r.states[i + 1]);
      IdempotencyKey(RequestAt(r, i, r.events[i].worker))
  }

  ghost predicate LooksUp(r: Run, i: nat, key: string)
    requires IsRun(r)
  {
    i < |r.events| && r.events[i].LookedUp? && KeyOf(r, i) == Some(key)
  }

  ghost predicate Stores(r: Run, i: nat, key: string)
    requires IsRun(r)
  {
    i < |r.events| && r.events[i].Stored? && KeyOf(r, i) == Some(key)
  }

  ghost predicate Misses(r: Run, i: nat, key: string)
    requires IsRun(r)
  {
    LooksUp(r, i, key) && key !in r.events[i].pruned
  }

  /** The prune inside event i removes the entry of this key. */
  ghost predicate Drops(r: Run, i: nat, key: string)
    requires IsRun(r)
  {
    && i < |r.events| && (r.events[i].LookedUp? || r.events[i].Stored?)
    && key in r.states[i].cache && key !in r.events[i].pruned
  }

  /** The clock value that the prune inside event i works with. */
  ghost function PruneTime(r: Run, i: nat): int
    requires IsRun(r) && i < |r.events| && (r.events[i].LookedUp? || r.events[i].Stored?)
  {
    assert Next(r.sessionId, r.states[i], r.events[i], r.states[i + 1]);
    if r.events[i].LookedUp? then r.states[i].workers[r.events[i].worker].phase.now else r.events[i].now
  }

  /** The entry was too old for the prune's clock, or the prune kept 512 others, none of them stored earlier. */
  ghost predicate DropJustified(r: Run, i: nat, key: string)
    requires IsRun(r) && Drops(r, i, key)
  {
    var entry := r.states[i].cache[key];
    var kept := r.events[i].pruned;
    || PruneTime(r, i) - entry.storedAt > 300000
    || (|kept| == 512 && forall other :: other in kept ==> kept[other].storedAt >= entry.storedAt)
  }

  /** s is the last store under this key before event j. */
  ghost predicate LastStore(r: Run, j: nat, key: string, s: nat)
    requires IsRun(r)
  {
    && s < j <= |r.events|
    && Stores(r, s, key)
    && forall t :: s < t < j ==> !Stores(r, t, key)
  }

  /** What the store at event s put into the cache. */
  ghost function EntryStored(r: Run, s: nat): CachedEntry
    requires IsRun(r) && s < |r.events| && r.events[s].Stored?
  {
    assert Next(r.sessionId, r.states[s], r.events[s], r.states[s + 1]);
    CachedEntry(CloneWithId(r.states[s].workers[r.events[s].worker].phase.response, None), r.events[s].now)
  }

  // ----- What one step does -----

  lemma DropIsJustified(r: Run, i: nat, key: string)
    requires IsRun(r) && Drops(r, i, key)
    ensures DropJustified(r, i, key)
  {
    assert Next(r.sessionId, r.states[i], r.events[i], r.states[i + 1]);
    DropReason(r.states[i].cache, PruneTime(r, i), r.events[i].pruned, key);
  }

  /** A key stays unless it is dropped, appears only by a store, and changes its entry only by a store. */
  lemma StepOnKey(r: Run, i: nat, key: string)
    requires IsRun(r) && i < |r.events|
    ensures Stores(r, i, key) ==> key in r.states[i + 1].cache && r.states[i + 1].cache[key] == EntryStored(r, i)
    ensures !Stores(r, i, key) ==>
              (key in r.states[i + 1].cache <==> key in r.states[i].cache && !Drops(r, i, key))
    ensures !Stores(r, i, key) && key in r.states[i + 1].cache ==> r.states[i + 1].cache[key] == r.states[i].cache[key]
  {
    assert Next(r.sessionId, r.states[i], r.events[i], r.states[i + 1]);
  }

  // ----- The cache refines the log of stores -----

  /** Between a store and a later state, the key is present exactly when no prune in between dropped it. */
  lemma {:induction false} PresentIffNotDropped(r: Run, j: nat, key: string, s: nat)
    requires IsRun(r) && LastStore(r, j, key, s)
    ensures key in r.states[j].cache <==> forall p :: s < p < j ==> !Drops(r, p, key)
    ensures key in r.states[j].cache ==> r.states[j].cache[key] == EntryStored(r, s)
  {
    hide Next, EntryStored, KeyOf;
    StepOnKey(r, j - 1, key);
    if s < j - 1 {
      assert !Stores(r, j - 1, key);
      PresentIffNotDropped(r, j - 1, key, s);
      if key !in r.states[j - 1].cache {
        var p :| s < p < j - 1 && Drops(r, p, key);
      }
    }
  }

  /** Every cached entry is what the last store under its key put there. */
  lemma {:induction false} CacheRefinesStoreLog(r: Run, j: nat, key: string) returns (s: nat)
    requires IsRun(r) && j < |r.states| && key in r.states[j].cache
    ensures LastStore(r, j, key, s) && r.states[j].cache[key] == EntryStored(r, s)
  {
    StepOnKey(r, j - 1, key);
    if Stores(r, j - 1, key) {
      s := j - 1;
    } else {
      s := CacheRefinesStoreLog(r, j - 1, key);
    }
  }

  lemma {:induction false} LastStoreExists(r: Run, j: nat, key: string, t: nat) returns (s: nat)
    requires IsRun(r) && t < j <= |r.events| && Stores(r, t, key)
    ensures LastStore(r, j, key, s) && t <= s
  {
    if Stores(r, j - 1, key) {
      s := j - 1;
    } else {
      s := LastStoreExists(r, j - 1, key, t);
    }
  }

  /** The map never holds more than 512 entries plus the one just inserted, and a lookup leaves at most 512. */
  lemma {:induction false} CacheSizeBounded(r: Run, j: nat)
    requires IsRun(r) && j < |r.states|
    ensures |r.states[j].cache| <= MAX_PROCESSED_REQUESTS + 1
    ensures j > 0 && r.events[j - 1].LookedUp? ==> |r.states[j].cache| <= MAX_PROCESSED_REQUESTS
  {
    if j > 0 {
      CacheSizeBounded(r, j - 1);
      assert Next(r.sessionId, r.states[j - 1], r.events[j - 1], r.states[j]);
    }
  }

  // ----- Workers along a run -----

  function Rank(phase: Phase): nat {
    match phase
    case Received => 0
    case Admitted => 1
    case ClockRead(_) => 2
    case Executing => 3
    case Executed(_) => 4
    case Answered(_, _) => 5
  }

  /** A worker keeps its request and never goes back. */
  lemma {:induction false} WorkerProgress(r: Run, i: nat, j: nat, w: nat)
    requires IsRun(r) && i <= j < |r.states| && w < |r.states[i].workers|
    ensures w < |r.states[j].workers| && RequestAt(r, j, w) == RequestAt(r, i, w)
    ensures Rank(r.states[i].workers[w].phase) <= Rank(r.states[j].workers[w].phase)
  {
    if i < j {
      WorkerProgress(r, i, j - 1, w);
      assert Next(r.sessionId, r.states[j - 1], r.events[j - 1], r.states[j]);
    }
  }

  /** No worker runs its command twice. */
  lemma WorkerRunsOnce(r: Run, i: nat, j: nat)
    requires IsRun(r) && i < j < |r.events| && r.events[i].Ran? && r.events[j].Ran?
    ensures r.events[i].worker != r.events[j].worker
  {
    var w := r.events[i].worker;
    assert Next(r.sessionId, r.states[i], r.events[i], r.states[i + 1]);
    WorkerProgress(r, i + 1, j, w);
    assert Next(r.sessionId, r.states[j], r.events[j], r.states[j + 1]);
  }

  /** A worker with a key that is executing has looked the key up and missed. */
  lemma {:induction false} ExecutionFollowsMiss(r: Run, n: nat, w: nat, key: string) returns (l: nat)
    requires IsRun(r) && n < |r.states| && w < |r.states[n].workers|
    requires r.states[n].workers[w].phase.Executing? && IdempotencyKey(RequestAt(r, n, w)) == Some(key)
    ensures l < n && Misses(r, l, key) && r.events[l].worker == w
  {
    assert Next(r.sessionId, r.states[n - 1], r.events[n - 1], r.states[n]);
    if w < |r.states[n - 1].workers| && r.states[n - 1].workers[w].phase.Executing? {
      l := ExecutionFollowsMiss(r, n - 1, w, key);
    } else {
      l := n - 1;
    }
  }

  // ----- The delivery guarantees -----

  ghost predicate NeverStored(r: Run, j: nat, key: string)
    requires IsRun(r)
  {
    forall t: nat :: t < j ==> !Stores(r, t, key)
  }

  ghost predicate DroppedSince(r: Run, s: nat, j: nat, key: string)
    requires IsRun(r)
  {
    exists p: nat :: s < p <= j && Drops(r, p, key)
  }

  lemma MissesIfNeverStored(r: Run, j: nat, key: string)
    requires IsRun(r) && LooksUp(r, j, key) && NeverStored(r, j, key)
    ensures Misses(r, j, key)
  {
    assert Next(r.sessionId, r.states[j], r.events[j], r.states[j + 1]);
    if key in r.states[j].cache {
      var s := CacheRefinesStoreLog(r, j, key);
    }
  }

  lemma MissesIffDroppedSince(r: Run, j: nat, key: string, s: nat)
    requires IsRun(r) && LooksUp(r, j, key) && LastStore(r, j, key, s)
    ensures Misses(r, j, key) <==> DroppedSince(r, s, j, key)
  {
    assert Next(r.sessionId, r.states[j], r.events[j], r.states[j + 1]);
    PresentIffNotDropped(r, j, key, s);
    if Misses(r, j, key) && key in r.states[j].cache {
      assert Drops(r, j, key);
    }
  }

  /** A lookup misses exactly when its key was never stored, or some prune since the last store dropped it. */
  lemma MissesIffDropped(r: Run, j: nat, key: string)
    requires IsRun(r) && LooksUp(r, j, key)
    ensures Misses(r, j, key) <==>
            NeverStored(r, j, key) || (exists s: nat :: LastStore(r, j, key, s) && DroppedSince(r, s, j, key))
  {
    if NeverStored(r, j, key) {
      MissesIfNeverStored(r, j, key);
    } else {
      var t: nat :| t < j && Stores(r, t, key);
      var s := LastStoreExists(r, j, key, t);
      MissesIffDroppedSince(r, j, key, s);
      forall s': nat | LastStore(r, j, key, s') && DroppedSince(r, s', j, key) ensures Misses(r, j, key) {
        MissesIffDroppedSince(r, j, key, s');
      }
    }
  }

  /** After a store, a miss on the same key means that a prune in between dropped the key, for a reason. */
  lemma MissAfterStore(r: Run, s: nat, j: nat, key: string)
    requires IsRun(r) && s < j && Stores(r, s, key) && Misses(r, j, key)
    ensures exists p: nat :: s < p <= j && Drops(r, p, key) && DropJustified(r, p, key)
  {
    var last := LastStoreExists(r, j, key, s);
    MissesIffDroppedSince(r, j, key, last);
    var p: nat :| last < p <= j && Drops(r, p, key);
    DropIsJustified(r, p, key);
  }

  /** A worker's key is the same at its run and at its store. */
  lemma StoresUnderOwnKey(r: Run, i: nat, s: nat, key: string)
    requires IsRun(r) && i < |r.events| && s < |r.events|
    requires r.events[i].Ran? && KeyOf(r, i) == Some(key)
    requires r.events[s].Stored? && r.events[s].worker == r.events[i].worker
    ensures Stores(r, s, key)
  {
    assert Next(r.sessionId, r.states[s], r.events[s], r.states[s + 1]);
    assert Next(r.sessionId, r.states[i], r.events[i], r.states[i + 1]);
    if s <= i {
      WorkerProgress(r, s, i, r.events[i].worker);
    } else {
      WorkerProgress(r, i, s, r.events[i].worker);
    }
  }

  /**
   * At most once, with its exact exceptions. If two workers with the same key both run their commands, then the
   * second one looked the key up before the first one stored, or a prune in between dropped the key, for a reason.
   */
  lemma AtMostOnce(r: Run, i: nat, j: nat, key: string) returns (lookup: nat)
    requires IsRun(r) && i < |r.events| && j < |r.events|
    requires r.events[i].Ran? && r.events[j].Ran? && r.events[i].worker != r.events[j].worker
    requires KeyOf(r, i) == Some(key) && KeyOf(r, j) == Some(key)
    ensures lookup < j && Misses(r, lookup, key) && r.events[lookup].worker == r.events[j].worker
    ensures forall s: nat :: s < lookup && r.events[s].Stored? && r.events[s].worker == r.events[i].worker ==>
              exists p: nat :: s < p <= lookup && Drops(r, p, key) && DropJustified(r, p, key)
  {
    assert Next(r.sessionId, r.states[j], r.events[j], r.states[j + 1]);
    lookup := ExecutionFollowsMiss(r, j, r.events[j].worker, key);
    forall s: nat | s < lookup && r.events[s].Stored? && r.events[s].worker == r.events[i].worker
      ensures exists p: nat :: s < p <= lookup && Drops(r, p, key) && DropJustified(r, p, key)
    {
      StoresUnderOwnKey(r, i, s, key);
      MissAfterStore(r, s, lookup, key);
    }
  }

  /**
   * A replay repeats the outcome of the last response stored under the key, with only the id replaced,
   * and that response came from a command that a worker with the same key ran.
   */
  lemma ReplayIsFaithful(r: Run, j: nat, key: string) returns (s: nat)
    requires IsRun(r) && LooksUp(r, j, key) && !Misses(r, j, key)
    ensures LastStore(r, j, key, s)
    ensures var w := r.events[j].worker;
            && w < |r.states[j + 1].workers| && r.states[j + 1].workers[w].phase.Answered?
            && var replay := r.states[j + 1].workers[w].phase.response;
            && SameOutcome(replay, EntryStored(r, s).response)
            && replay.id == RequestAt(r, j + 1, w).id
    ensures exists i :: 0 <= i < s && r.events[i].Ran? && r.events[i].worker == r.events[s].worker
              && SameOutcome(r.events[i].response, EntryStored(r, s).response)
  {
    assert Next(r.sessionId, r.states[j], r.events[j], r.states[j + 1]);
    s := CacheRefinesStoreLog(r, j, key);
    assert Next(r.sessionId, r.states[s], r.events[s], r.states[s + 1]);
    var i := StoredWasRun(r, s, r.events[s].worker);
  }

  lemma {:induction false} StoredWasRun(r: Run, n: nat, w: nat) returns (i: nat)
    requires IsRun(r) && n < |r.states| && w < |r.states[n].workers| && r.states[n].workers[w].phase.Executed?
    ensures i < n && r.events[i].Ran? && r.events[i].worker == w
    ensures r.events[i].response == r.states[n].workers[w].phase.response
  {
    assert Next(r.sessionId, r.states[n - 1], r.events[n - 1], r.states[n]);
    if w < |r.states[n - 1].workers| && r.states[n - 1].workers[w].phase.Executed? {
      i := StoredWasRun(r, n - 1, w);
    } else {
      i := n - 1;
    }
  }
}
