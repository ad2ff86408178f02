/** The correlator as the program runs it, over the store it subscribes to. */
module Correlator {
  import opened Collections
  import opened Events
  import opened CorrelatorSpec
  import Store = EventStore

  class Correlator {
    const store: Store.EventStore
    const maxPending: nat
    var pendingRequests: OMap<Key, nat>
    var pendingResponses: OMap<Key, nat>
    var changedIndexes: seq<nat>
    var pairIdx: seq<int>
    var latencyMs: seq<int>
    var status: seq<Status>

    ghost function State(): Corr
      reads this
    {
      Corr(pendingRequests, pendingResponses, changedIndexes, pairIdx, latencyMs, status)
    }

    constructor (store: Store.EventStore, maxPending: nat := MAX_PENDING)
      ensures this.store == store && this.maxPending == maxPending && State() == CLEAR
    {
      this.store, this.maxPending := store, maxPending;
      pendingRequests, pendingResponses, changedIndexes := Empty(), Empty(), [];
      pairIdx, latencyMs, status := [], [], [];
    }

    method PairOf(i: nat) returns (r: Option<int>)
      ensures r == CorrelatorSpec.PairOf(State(), i)
    {
      r := if i < |pairIdx| && pairIdx[i] >= 0 then Some(pairIdx[i]) else None;
    }

    method LatencyOf(i: nat) returns (r: Option<int>)
      ensures r == CorrelatorSpec.LatencyOf(State(), i)
    {
      r := if i < |latencyMs| && latencyMs[i] >= 0 then Some(latencyMs[i]) else None;
    }

    method StatusOf(i: nat) returns (r: Status)
      ensures r == CorrelatorSpec.StatusOf(State(), i)
    {
      r := if i < |status| then status[i] else NotApplicable;
    }

    method DrainChangedIndexes() returns (indexes: seq<nat>)
      modifies this
      ensures indexes == old(changedIndexes) && State() == Drain(old(State()))
    {
      indexes := changedIndexes;
      changedIndexes := [];
    }

    method SetStatus(i: nat, s: Status)
      requires i < |status|
      modifies this`status, this`changedIndexes
      ensures State() == CorrelatorSpec.SetStatus(old(State()), i, s)
    {
      status := status[i := s];
      if i !in changedIndexes {
        changedIndexes := changedIndexes + [i];
      }
    }

    method Pair(req: nat, resp: nat)
      requires req < |status| <= |store.events| && resp < |status| && |latencyMs| == |pairIdx| == |status|
      modifies this
      ensures State() == CorrelatorSpec.Pair(store.events, old(State()), req, resp)
    {
      var s := if store.events[resp].failed then Error else Ok;
      pairIdx := pairIdx[req := resp];
      pairIdx := pairIdx[resp := req];
      latencyMs := latencyMs[req := store.events[resp].ts - store.events[req].ts];
      SetStatus(req, s);
      SetStatus(resp, s);
    }

    method OnRequest(i: nat)
      requires WellFormed(State()) && i < |status| <= |store.events|
      modifies this
      ensures State() == CorrelatorSpec.OnRequest(maxPending, store.events, old(State()), i)
    {
      var key := KeyForRequest(store.events[i]);
      var earlyResp := pendingResponses.Get(key);
      if earlyResp.Some? {
        pendingResponses := pendingResponses.Delete(key);
        Pair(i, earlyResp.value);
        return;
      }
      var displaced := pendingRequests.Get(key);
      if displaced.Some? {
        SetStatus(displaced.value, Orphan);
      } else if |pendingRequests.order| >= maxPending && |pendingRequests.order| > 0 {
        var oldestKey := pendingRequests.order[0];
        var oldIdx := pendingRequests.entries[oldestKey];
        pendingRequests := pendingRequests.Delete(oldestKey);
        SetStatus(oldIdx, Unmatched);
      }
      pendingRequests := pendingRequests.Set(key, i);
      SetStatus(i, Pending);
    }

    method OnResponse(i: nat)
      requires WellFormed(State()) && i < |status| <= |store.events|
      modifies this
      ensures State() == CorrelatorSpec.OnResponse(maxPending, store.events, old(State()), i)
    {
      var key := KeyForResponse(store.events[i]);
      var reqIdx := pendingRequests.Get(key);
      if reqIdx.Some? {
        pendingRequests := pendingRequests.Delete(key);
        Pair(reqIdx.value, i);
        return;
      }
      var displaced := pendingResponses.Get(key);
      if displaced.Some? {
        SetStatus(displaced.value, Orphan);
      } else if |pendingResponses.order| >= maxPending && |pendingResponses.order| > 0 {
        pendingResponses := pendingResponses.Delete(pendingResponses.order[0]);
      }
      pendingResponses := pendingResponses.Set(key, i);
    }

    /** The store has appended event `i`. */
    method OnAppend(i: nat)
      requires WellFormed(State()) && i == |status| < |store.events|
      modifies this
      ensures State() == CorrelatorSpec.OnAppend(maxPending, store.events, old(State()), i)
    {
      pairIdx, latencyMs, status := pairIdx + [-1], latencyMs + [-1], status + [NotApplicable];
      if store.events[i].kind == Request {
        OnRequest(i);
      } else if store.events[i].kind == Response {
        OnResponse(i);
      }
    }

    /** Walks the pending requests in map order; deleting the current key does not disturb the walk. */
    method Flush(nowMs: int, timeoutMs: int := DEFAULT_TIMEOUT_MS)
      requires WellFormed(State()) && |status| <= |store.events|
      modifies this
      ensures State() == CorrelatorSpec.Flush(store.events, old(State()), nowMs, timeoutMs)
    {
      var keys := pendingRequests.order;
      var n := 0;
      assert keys[0..] == keys;
      while n < |keys|
        invariant n <= |keys|
        invariant WellFormed(State()) && |status| <= |store.events|
        invariant FlushKeys(store.events, State(), keys[n..], nowMs, timeoutMs) == FlushKeys(store.events, old(State()), keys, nowMs, timeoutMs)
      {
        assert keys[n..][1..] == keys[n + 1..];
        FlushOne(keys[n], nowMs, timeoutMs);
        n := n + 1;
      }
    }

    method FlushOne(key: Key, nowMs: int, timeoutMs: int)
      requires WellFormed(State()) && |status| <= |store.events|
      modifies this
      ensures State() == FlushKey(store.events, old(State()), key, nowMs, timeoutMs)
    {
      var idx := pendingRequests.Get(key);
      if idx.Some? && nowMs - store.events[idx.value].ts >= timeoutMs {
        pendingRequests := pendingRequests.Delete(key);
        SetStatus(idx.value, Unmatched);
      }
    }

    method Reset()
      modifies this
      ensures State() == CLEAR
    {
      pendingRequests, pendingResponses, changedIndexes := Empty(), Empty(), [];
      pairIdx, latencyMs, status := [], [], [];
    }
  }
}
