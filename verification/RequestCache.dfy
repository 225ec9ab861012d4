/** The idempotency cache of a runtime: responses remembered by idempotency key, with a time limit and a size limit. */
module RequestCache {
  import opened Wrappers
  import opened Sorting
  import opened Protocol

  const PROCESSED_REQUEST_TTL_MS := 5 * 60 * 1000
  const MAX_PROCESSED_REQUESTS := 512

  datatype CachedEntry = CachedEntry(response: Response, storedAt: int)

  type Cache = map<string, CachedEntry>

  predicate Expired(entry: CachedEntry, now: int) {
    now - entry.storedAt > PROCESSED_REQUEST_TTL_MS
  }

  function Unexpired(cache: Cache, now: int): Cache {
    map key | key in cache && !Expired(cache[key], now) :: cache[key]
  }

  /**
   * What a prune may leave. Among entries stored at the same millisecond the choice depends on the
   * iteration order of the hash map, so this is a relation.
   */
  ghost predicate IsPruned(before: Cache, now: int, after: Cache) {
    var alive := Unexpired(before, now);
    && after.Keys <= alive.Keys
    && (forall key :: key in after ==> after[key] == before[key])
    && |after| == (if |alive| <= MAX_PROCESSED_REQUESTS then |alive| else MAX_PROCESSED_REQUESTS)
    && (forall kept, dropped :: kept in after && dropped in alive && dropped !in after ==>
        alive[dropped].storedAt <= alive[kept].storedAt)
  }

  /** What a lookup answers from the map that its prune left. */
  function CachedAnswer(pruned: Cache, request: Request): Option<Response> {
    match IdempotencyKey(request)
    case None => None
    case Some(key) => if key in pruned then Some(CloneWithId(pruned[key].response, request.id)) else None
  }

  /** The effect of one lookup under the lock; `pruned` is the map it leaves behind. */
  ghost predicate LookupEffect(before: Cache, request: Request, now: int, pruned: Cache) {
    if IdempotencyKey(request).None? then pruned == before else IsPruned(before, now, pruned)
  }

  /** The effect of one store under the lock; `pruned` is the map between its prune and its insertion. */
  ghost predicate StoreEffect(before: Cache, request: Request, response: Response, now: int, pruned: Cache, after: Cache) {
    match IdempotencyKey(request)
    case None => pruned == before && after == before
    case Some(key) =>
      && IsPruned(before, now, pruned)
      && after == pruned[key := CachedEntry(CloneWithId(response, None), now)]
  }

  type Dated = (string, int)

  predicate OlderFirst(a: Dated, b: Dated) {
    a.1 <= b.1
  }

  lemma OlderFirstIsPreorder()
    ensures TotalPreorder(OlderFirst)
  {}

  function KeysFrom(ordered: seq<Dated>, i: nat): set<string>
    requires i <= |ordered|
  {
    set j | i <= j < |ordered| :: ordered[j].0
  }

  /** The pairs (key, time) of the entries in some order, each key once. */
  ghost predicate Lists(ordered: seq<Dated>, entries: Cache) {
    && (forall i :: 0 <= i < |ordered| ==> ordered[i].0 in entries && entries[ordered[i].0].storedAt == ordered[i].1)
    && (forall i, j :: 0 <= i < j < |ordered| ==> ordered[i].0 != ordered[j].0)
    && KeysFrom(ordered, 0) == entries.Keys
  }

  lemma {:induction false} KeysFromCardinality(ordered: seq<Dated>, i: nat)
    requires i <= |ordered|
    requires forall a, b :: 0 <= a < b < |ordered| ==> ordered[a].0 != ordered[b].0
    ensures |KeysFrom(ordered, i)| == |ordered| - i
    decreases |ordered| - i
  {
    if i < |ordered| {
      KeysFromCardinality(ordered, i + 1);
      assert KeysFrom(ordered, i) == {ordered[i].0} + KeysFrom(ordered, i + 1);
    }
  }

  lemma KeysFromSplit(ordered: seq<Dated>, i: nat)
    requires i < |ordered|
    requires forall a, b :: 0 <= a < b < |ordered| ==> ordered[a].0 != ordered[b].0
    ensures KeysFrom(ordered, i) == {ordered[i].0} + KeysFrom(ordered, i + 1)
    ensures ordered[i].0 !in KeysFrom(ordered, i + 1)
  {}

  lemma PermutationKeepsListing(ordered: seq<Dated>, permuted: seq<Dated>, entries: Cache)
    requires Lists(ordered, entries)
    requires multiset(permuted) == multiset(ordered)
    ensures Lists(permuted, entries)
  {
    forall i | 0 <= i < |permuted| ensures permuted[i] in ordered {
      assert permuted[i] in multiset(permuted);
    }
    forall i, j | 0 <= i < j < |permuted| ensures permuted[i].0 != permuted[j].0 {
      NoDuplicatesPermuted(ordered, permuted);
      assert permuted[i] != permuted[j];
    }
    forall key | key in entries ensures key in KeysFrom(permuted, 0) {
      assert key in KeysFrom(ordered, 0);
      var a :| 0 <= a < |ordered| && ordered[a].0 == key;
      assert ordered[a] in multiset(ordered);
      assert ordered[a] in permuted;
    }
  }

  lemma SortKeepsListing(ordered: seq<Dated>, entries: Cache)
    requires Lists(ordered, entries)
    ensures Lists(SortBy(ordered, OlderFirst), entries)
    ensures Sorted(SortBy(ordered, OlderFirst), OlderFirst)
  {
    OlderFirstIsPreorder();
    SortByCorrect(ordered, OlderFirst);
    PermutationKeepsListing(ordered, SortBy(ordered, OlderFirst), entries);
  }

  /** An entry listed before the cut is at most as recent as one listed after it. */
  lemma ListedOlder(ordered: seq<Dated>, alive: Cache, cut: nat, kept: string, dropped: string)
    requires Lists(ordered, alive) && Sorted(ordered, OlderFirst)
    requires cut <= |ordered| && kept in KeysFrom(ordered, cut)
    requires dropped in alive && dropped !in KeysFrom(ordered, cut)
    ensures kept in alive && alive[dropped].storedAt <= alive[kept].storedAt
  {
    var a :| cut <= a < |ordered| && ordered[a].0 == kept;
    assert dropped in KeysFrom(ordered, 0);
    var b :| 0 <= b < |ordered| && ordered[b].0 == dropped;
    assert b < cut;
    assert OlderFirst(ordered[b], ordered[a]);
  }

  /** Cutting an oldest-first listing keeps the newest entries. */
  lemma CutIsPruned(before: Cache, now: int, ordered: seq<Dated>, cut: nat, after: Cache)
    requires Lists(ordered, Unexpired(before, now)) && Sorted(ordered, OlderFirst)
    requires |ordered| > MAX_PROCESSED_REQUESTS && cut == |ordered| - MAX_PROCESSED_REQUESTS
    requires after.Keys == KeysFrom(ordered, cut)
    requires forall key :: key in after ==> key in before && after[key] == before[key]
    ensures IsPruned(before, now, after)
  {
    var alive := Unexpired(before, now);
    assert |alive| == |ordered| by {
      KeysFromCardinality(ordered, 0);
      assert |alive| == |alive.Keys|;
    }
    assert |after| == MAX_PROCESSED_REQUESTS by {
      KeysFromCardinality(ordered, cut);
      assert |after| == |after.Keys|;
    }
    assert after.Keys <= alive.Keys by {
      forall key | key in after ensures key in alive {
        var a :| cut <= a < |ordered| && ordered[a].0 == key;
      }
    }
    forall kept, dropped | kept in after && dropped in alive && dropped !in after
      ensures alive[dropped].storedAt <= alive[kept].storedAt
    {
      assert kept in after.Keys && dropped !in after.Keys;
      ListedOlder(ordered, alive, cut, kept, dropped);
    }
  }

  class ProcessedRequests {
    var entries: Cache

    constructor ()
      ensures entries == map[]
    {
      entries := map[];
    }

    method PruneProcessedRequests(now: int)
      modifies this
      ensures IsPruned(old(entries), now, entries)
    {
      entries := map key | key in entries && now - entries[key].storedAt <= PROCESSED_REQUEST_TTL_MS :: entries[key];
      assert entries == Unexpired(old(entries), now);
      if |entries| <= MAX_PROCESSED_REQUESTS {
        return;
      }
      var ordered := Listing();
      SortKeepsListing(ordered, entries);
      ordered := SortBy(ordered, OlderFirst);
      assert |ordered| == |entries| by {
        KeysFromCardinality(ordered, 0);
        assert |entries| == |entries.Keys|;
      }
      var removeCount := |ordered| - MAX_PROCESSED_REQUESTS;
      RemoveListed(ordered, removeCount);
      CutIsPruned(old(entries), now, ordered, removeCount, entries);
    }

    /** Removes the first `count` listed keys. */
    method RemoveListed(ordered: seq<Dated>, count: nat)
      requires Lists(ordered, entries) && count <= |ordered|
      modifies this
      ensures entries.Keys == KeysFrom(ordered, count)
      ensures forall key :: key in entries ==> key in old(entries) && entries[key] == old(entries)[key]
    {
      for i := 0 to count
        invariant entries.Keys == KeysFrom(ordered, i)
        invariant forall key :: key in entries ==> key in old(entries) && entries[key] == old(entries)[key]
      {
        KeysFromSplit(ordered, i);
        entries := entries - {ordered[i].0};
      }
    }

    /** The entries with their times, in an arbitrary order. */
    method Listing() returns (ordered: seq<Dated>)
      ensures Lists(ordered, entries)
    {
      ordered := [];
      var remaining := entries.Keys;
      while remaining != {}
        invariant remaining <= entries.Keys
        invariant KeysFrom(ordered, 0) == entries.Keys - remaining
        invariant forall i :: 0 <= i < |ordered| ==>
                    && ordered[i].0 in entries.Keys - remaining
                    && entries[ordered[i].0].storedAt == ordered[i].1
        invariant forall i, j :: 0 <= i < j < |ordered| ==> ordered[i].0 != ordered[j].0
      {
        var key :| key in remaining;
        ghost var was := ordered;
        ordered := ordered + [(key, entries[key].storedAt)];
        remaining := remaining - {key};
        assert KeysFrom(ordered, 0) == KeysFrom(was, 0) + {key} by {
          forall k | k in KeysFrom(was, 0) ensures k in KeysFrom(ordered, 0) {
            var j :| 0 <= j < |was| && was[j].0 == k;
            assert ordered[j].0 == k;
          }
          assert ordered[|was|].0 == key;
        }
      }
    }

    /** `now` was read before the lock was taken. */
    method ReplayCachedResponse(request: Request, now: int) returns (answer: Option<Response>)
      modifies this
      ensures LookupEffect(old(entries), request, now, entries)
      ensures answer == CachedAnswer(entries, request)
    {
      var key := IdempotencyKey(request);
      if key.None? {
        return None;
      }
      PruneProcessedRequests(now);
      if key.value in entries {
        var cached := entries[key.value];
        return Some(CloneWithId(cached.response, request.id));
      }
      return None;
    }

    /** `now` is read while the lock is held. */
    method RememberProcessedResponse(request: Request, response: Response, now: int) returns (ghost pruned: Cache)
      modifies this
      ensures StoreEffect(old(entries), request, response, now, pruned, entries)
    {
      pruned := entries;
      var key := IdempotencyKey(request);
      if key.None? {
        return;
      }
      PruneProcessedRequests(now);
      pruned := entries;
      entries := entries[key.value := CachedEntry(CloneWithId(response, None), now)];
    }
  }

  /** Nothing expired survives a prune, and nothing is dropped while everything is alive and fits. */
  lemma PruneIsNeutral(before: Cache, now: int, after: Cache)
    requires IsPruned(before, now, after)
    requires |before| <= MAX_PROCESSED_REQUESTS
    requires forall key :: key in before ==> !Expired(before[key], now)
    ensures after == before
  {
    assert Unexpired(before, now) == before;
    SubsetOfSameSize(after.Keys, before.Keys);
  }

  lemma SubsetOfSameSize<T>(a: set<T>, b: set<T>)
    requires a <= b && |a| == |b|
    ensures a == b
  {
    if a != b {
      var x :| x in b && x !in a;
      assert a <= b - {x};
      SubsetSize(a, b - {x});
    }
  }

  lemma {:induction false} SubsetSize<T>(a: set<T>, b: set<T>)
    requires a <= b
    ensures |a| <= |b|
  {
    if a != {} {
      var x :| x in a;
      SubsetSize(a - {x}, b - {x});
    }
  }

  /** After a prune nothing is older than five minutes, and there are at most 512 entries, all of them unchanged. */
  lemma PruneLimits(before: Cache, now: int, after: Cache)
    requires IsPruned(before, now, after)
    ensures |after| <= 512
    ensures forall key :: key in after ==> key in before && after[key] == before[key] && now - after[key].storedAt <= 300000
  {
    var alive := Unexpired(before, now);
    forall key | key in after ensures key in before && after[key] == before[key] && now - after[key].storedAt <= 300000 {
      assert key in alive.Keys;
    }
  }

  /**
   * An entry is lost to a prune only for one of two reasons: it was too old, or the prune kept the full
   * 512 entries and every one of them was stored at the same time or later.
   */
  lemma DropReason(before: Cache, now: int, after: Cache, key: string)
    requires IsPruned(before, now, after)
    requires key in before && key !in after
    ensures now - before[key].storedAt > 300000
         || (|after| == 512
             && forall other :: other in after ==> before[key].storedAt <= before[other].storedAt)
  {
    var alive := Unexpired(before, now);
    if !Expired(before[key], now) {
      assert key in alive;
      if |alive| <= MAX_PROCESSED_REQUESTS {
        SubsetOfSameSize(after.Keys, alive.Keys);
      }
      forall other | other in after ensures before[key].storedAt <= before[other].storedAt {
        assert alive[key].storedAt <= alive[other].storedAt;
      }
    }
  }
}
