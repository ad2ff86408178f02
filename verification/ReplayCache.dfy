/** `StateReplayIndex`: the cache in front of `replayToIndex`, updated in place. */
module ReplayCache {
  import opened Collections
  import opened ReplaySpec
  import opened ReplayCacheSpec
  import Replay
  import Laws = ReplayCacheLaws

  /** The event store, as far as the cache looks at it. */
  class Store {
    var log: seq<Stored>

    constructor ()
      ensures log == []
    {
      log := [];
    }
  }

  /** What a query reports besides the result. */
  datatype CacheInfo = CacheInfo(hit: bool, size: nat, maxEntries: nat)

  class StateReplayIndex {
    const store: Store
    const setup: Setup
    var cache: OMap<int, Entry>
    var cacheCostBytes: int
    var observedStoreSize: nat
    var observedStoreTail: Option<nat>

    ghost function State(): Cache
      reads this
    {
      Cache(cache, cacheCostBytes, observedStoreSize, observedStoreTail)
    }

    constructor (store: Store, setup: Setup)
      ensures this.store == store && this.setup == setup
      ensures State() == Laws.Start(store.log)
    {
      this.store, this.setup := store, setup;
      cache, cacheCostBytes := Empty(), 0;
      new;
      RecordStoreState();
    }

    method RecordStoreState()
      modifies this
      ensures State() == Observe(old(State()), store.log)
    {
      observedStoreSize := |store.log|;
      observedStoreTail := if observedStoreSize > 0 then Some(store.log[observedStoreSize - 1].identity) else None;
    }

    method ClearCache()
      modifies this
      ensures State() == Clear(old(State()))
    {
      cache := Empty();
      cacheCostBytes := 0;
    }

    method Reset()
      modifies this
      ensures State() == ReplayCacheSpec.Reset(old(State()), store.log)
    {
      ClearCache();
      RecordStoreState();
    }

    method InvalidateIfStorePrefixChanged()
      requires cache.Valid()
      modifies this
      ensures State() == ReplayCacheSpec.InvalidateIfStorePrefixChanged(old(State()), store.log) && cache.Valid()
    {
      var currentSize := |store.log|;
      var priorTailPreserved :=
        observedStoreSize == 0 ||
        (currentSize >= observedStoreSize && Some(store.log[observedStoreSize - 1].identity) == observedStoreTail);
      if !priorTailPreserved {
        ClearCache();
      }
      RecordStoreState();
    }

    method DeleteCached(targetIndex: int)
      requires cache.Valid()
      modifies this
      ensures State() == Drop(old(State()), targetIndex) && cache.Valid()
    {
      if targetIndex in cache.entries {
        cacheCostBytes := cacheCostBytes - cache.entries[targetIndex].cost;
        cache := cache.Delete(targetIndex);
      }
    }

    method EvictToBounds()
      requires cache.Valid()
      modifies this
      ensures State() == ReplayCacheSpec.EvictToBounds(setup, old(State())) && cache.Valid()
    {
      while |cache.order| > setup.maxEntries || cacheCostBytes > setup.maxCost
        invariant cache.Valid()
        invariant ReplayCacheSpec.EvictToBounds(setup, State()) == ReplayCacheSpec.EvictToBounds(setup, old(State()))
        decreases |cache.order|
      {
        if |cache.order| == 0 { break; }
        DeleteCached(cache.order[0]);
      }
    }

    /** Remembers a result unless it alone is over the bounds, at the expense of the least recently used. */
    method Remember(targetIndex: int, result: ReplayResult, targetEvent: nat)
      requires cache.Valid()
      modifies this
      ensures State() == Keep(setup, old(State()), targetIndex, Entry(result, setup.weigh(result), targetEvent))
      ensures cache.Valid()
    {
      var costBytes := setup.weigh(result);
      if setup.maxEntries > 0 && costBytes <= setup.maxCost {
        cache := cache.Set(targetIndex, Entry(result, costBytes, targetEvent));
        cacheCostBytes := cacheCostBytes + costBytes;
        EvictToBounds();
      }
    }

    /** A query for an event of the store, once the cache has been checked against it. */
    method Lookup(targetIndex: nat) returns (result: ReplayResult, hit: bool)
      requires cache.Valid() && targetIndex < |store.log|
      modifies this
      ensures State() == Touched(setup, old(State()), store.log, targetIndex) && cache.Valid()
      ensures hit == IsHit(old(State()), store.log, targetIndex)
      ensures result == if hit then old(cache).entries[targetIndex].result else Fresh(setup, store.log, targetIndex)
    {
      var cached := cache.Get(targetIndex);
      var targetEvent := store.log[targetIndex].identity;
      if cached.Some? && cached.value.target == targetEvent {
        cache := cache.Delete(targetIndex);
        cache := cache.Set(targetIndex, cached.value);
        return cached.value.result, true;
      }
      if cached.Some? {
        DeleteCached(targetIndex);
      }
      result := Replay.ReplayToIndex(setup.codec, Inputs(store.log), targetIndex);
      Remember(targetIndex, result, targetEvent);
      hit := false;
    }

    /** The state at an index, from the cache when it has it. For the events of a log whose objects are never
        reused, the result is that of a fresh replay (`CacheIsInvisible`). */
    method StateAtIndex(targetIndex: int) returns (result: ReplayResult, info: CacheInfo)
      requires cache.Valid()
      modifies this
      ensures result == Answer(setup, old(State()), store.log, targetIndex)
      ensures State() == AfterQuery(setup, old(State()), store.log, targetIndex) && cache.Valid()
      ensures info.size == |cache.order| && info.maxEntries == setup.maxEntries
      ensures info.hit == IsHit(ReplayCacheSpec.InvalidateIfStorePrefixChanged(old(State()), store.log), store.log, targetIndex)
    {
      InvalidateIfStorePrefixChanged();
      var hit := false;
      if targetIndex < 0 || targetIndex >= |store.log| {
        result := Replay.ReplayToIndex(setup.codec, Inputs(store.log), targetIndex);
      } else {
        result, hit := Lookup(targetIndex);
      }
      info := CacheInfo(hit, |cache.order|, setup.maxEntries);
    }
  }
}
