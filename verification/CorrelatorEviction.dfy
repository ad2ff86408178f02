/** Which parked message goes when room is needed, and what else an arrival does to the two waiting lists. */
module CorrelatorEviction {
  import opened Collections
  import opened Events
  import opened CorrelatorSpec
  import opened CorrelatorLaws

  /** A waiting list after a message of `key` is parked at index `i`: in the place of one of the same key, or else
      last, and then the first goes if the list is full. */
  ghost predicate Parks(max: nat, m: OMap<Key, nat>, m': OMap<Key, nat>, key: Key, i: nat) {
    && m'.order == (if key in m.entries then m.order else (if |m.order| >= max && |m.order| > 0 then m.order[1..] else m.order) + [key])
    && m'.Get(key) == Some(i)
    && forall k :: k in m'.order && k != key ==> k in m.entries && m'.Get(k) == m.Get(k)
  }

  /** A waiting list after the message of `key` has met its partner. */
  ghost predicate Leaves(m: OMap<Key, nat>, m': OMap<Key, nat>, key: Key) {
    && m'.order == Without(m.order, key) && key !in m'.entries
    && forall k :: k in m'.order ==> k in m.entries && m'.Get(k) == m.Get(k)
  }

  /** Whom a parked message costs its place: the one of the same key, or the first of a full list. */
  function Loser(max: nat, m: OMap<Key, nat>, key: Key): Option<nat>
    requires m.Valid()
  {
    if key in m.entries then Some(m.entries[key])
    else if |m.order| >= max && |m.order| > 0 then Some(m.entries[m.order[0]])
    else None
  }

  lemma WithoutFirst(order: seq<Key>)
    requires |order| > 0
    ensures Without(order, order[0]) == order[1..]
  {
  }

  lemma RequestIsParked(max: nat, c: Corr, key: Key, i: nat)
    requires WellFormed(c) && i < |c.status|
    ensures var c' := ParkRequest(max, c, key, i); Parks(max, c.requests, c'.requests, key, i) && c'.responses == c.responses
  {
    RoomParks(max, c.requests, key, i);
  }

  /** Setting a key once there is room for it. */
  lemma RoomParks(max: nat, m: OMap<Key, nat>, key: Key, i: nat)
    requires m.Valid()
    ensures
      var room := if key in m.entries || |m.order| < max || |m.order| == 0 then m else m.Delete(m.order[0]);
      Parks(max, m, room.Set(key, i), key, i)
  {
    if key !in m.entries && |m.order| >= max && |m.order| > 0 {
      WithoutFirst(m.order);
      assert key !in m.Delete(m.order[0]).entries;
    }
  }

  lemma RequestLoses(max: nat, events: seq<Event>, c: Corr, key: Key, i: nat)
    requires 1 <= max && Ready(max, events, c, i) && WellFormed(c)
    ensures
      var c' := ParkRequest(max, c, key, i);
      && |c'.status| == |c.status|
      && forall j: nat :: j < i ==>
           c'.status[j] == if Loser(max, c.requests, key) == Some(j) then (if key in c.requests.entries then Orphan else Unmatched) else c.status[j]
  {
    if key in c.requests.entries {
      ParkRequestOver(max, events, c, key, i);
    } else {
      ParkRequestNew(max, events, c, key, i);
    }
  }

  lemma ParkedRequest(max: nat, events: seq<Event>, c: Corr, i: nat)
    requires 1 <= max && Ready(max, events, c, i) && WellFormed(c) && IsRequest(events, i)
    requires KeyForRequest(events[i]) !in c.responses.entries
    ensures
      var key := KeyForRequest(events[i]);
      var c' := OnRequest(max, events, c, i);
      && Parks(max, c.requests, c'.requests, key, i) && c'.responses == c.responses && |c'.status| == |c.status|
      && forall j: nat :: j < i ==>
           c'.status[j] == if Loser(max, c.requests, key) == Some(j) then (if key in c.requests.entries then Orphan else Unmatched) else c.status[j]
  {
    RequestIsParked(max, c, KeyForRequest(events[i]), i);
    RequestLoses(max, events, c, KeyForRequest(events[i]), i);
  }

  lemma ParkedResponse(max: nat, events: seq<Event>, c: Corr, i: nat)
    requires 1 <= max && Ready(max, events, c, i) && WellFormed(c) && IsResponse(events, i)
    requires KeyForResponse(events[i]) !in c.requests.entries
    ensures
      var key := KeyForResponse(events[i]);
      var c' := OnResponse(max, events, c, i);
      && Parks(max, c.responses, c'.responses, key, i) && c'.requests == c.requests && |c'.status| == |c.status|
      && forall j: nat :: j < i ==>
           c'.status[j] == if key in c.responses.entries && c.responses.entries[key] == j then Orphan else c.status[j]
  {
    var key := KeyForResponse(events[i]);
    if |c.responses.order| > 0 { WithoutFirst(c.responses.order); }
    ParkResponseFields(max, events, c, key, i);
  }

  /** What an arrival does in any reachable state. Parking costs at most one waiting message its place: the one of
      the same key, which is orphaned, or, when the list is full, the first in it, and no other. A request that
      loses its place so is unmatched; a response keeps its status, so it goes silently. */
  lemma ArrivalsPark(max: nat, w: World, ev: Event)
    requires 1 <= max && Reachable(max, w)
    ensures
      var c, c', i := w.corr, Next(max, w, Arrive(ev)).corr, |w.events|;
      && c.requests.Valid() && c.responses.Valid() && |c.status| == i && |c'.status| == i + 1
      && match ev.kind
         case Request =>
           var key := KeyForRequest(ev);
           if key in c.responses.entries then Leaves(c.responses, c'.responses, key) && c'.requests == c.requests
           else
             && Parks(max, c.requests, c'.requests, key, i) && c'.responses == c.responses
             && forall j: nat :: j < i ==>
                  c'.status[j] == if Loser(max, c.requests, key) == Some(j) then (if key in c.requests.entries then Orphan else Unmatched) else c.status[j]
         case Response =>
           var key := KeyForResponse(ev);
           if key in c.requests.entries then Leaves(c.requests, c'.requests, key) && c'.responses == c.responses
           else
             && Parks(max, c.responses, c'.responses, key, i) && c'.requests == c.requests
             && forall j: nat :: j < i ==>
                  c'.status[j] == if key in c.responses.entries && c.responses.entries[key] == j then Orphan else c.status[j]
         case _ => c'.requests == c.requests && c'.responses == c.responses && forall j: nat :: j < i ==> c'.status[j] == c.status[j]
  {
    var events, i, slots := w.events + [ev], |w.events|, FreshSlots(w.corr);
    InvGrows(max, w.events, [ev], w.corr);
    FreshSlotsKeep(max, events, w.corr);
    NextKeeps(max, w, Arrive(ev));
    assert Ready(max, events, slots, i);
    if ev.kind == Request && KeyForRequest(ev) !in w.corr.responses.entries {
      ParkedRequest(max, events, slots, i);
    } else if ev.kind == Response && KeyForResponse(ev) !in w.corr.requests.entries {
      ParkedResponse(max, events, slots, i);
    }
  }
}
