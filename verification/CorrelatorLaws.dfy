/** What every run of the correlator keeps. */
module CorrelatorLaws {
  import opened Collections
  import opened Events
  import opened CorrelatorSpec

  lemma TouchKeeps(changed: seq<nat>, i: nat, bound: nat)
    requires NoDup(changed) && i < bound && forall j :: j in changed ==> j < bound
    ensures var t := Touch(changed, i); NoDup(t) && i in t && (forall j :: j in changed ==> j in t) && forall j :: j in t ==> j < bound
  {
  }

  lemma InvIsWellFormed(max: nat, events: seq<Event>, c: Corr)
    requires Inv(max, events, c)
    ensures WellFormed(c)
  {
  }

  /** What one transition must establish. */
  ghost predicate Steps(max: nat, events: seq<Event>, c: Corr, c': Corr) {
    Inv(max, events, c') && KeepsSettled(c, c') && ChangesListed(c, c')
  }

  lemma FreshSlotsKeep(max: nat, events: seq<Event>, c: Corr)
    requires Inv(max, events, c) && |c.status| < |events|
    ensures Shape(max, events, FreshSlots(c)) && Parked(events, FreshSlots(c))
    ensures forall i: nat :: i < |c.status| ==> Placed(events, FreshSlots(c), i)
    ensures KeepsSettled(c, FreshSlots(c)) && ChangesListed(c, FreshSlots(c))
  {
    var c' := FreshSlots(c);
    forall i: nat | i < |c.status| ensures Placed(events, c', i) {
      assert Placed(events, c, i);
    }
  }

  /** A state in which everything is placed except the newest event `i`, whose slots are fresh. */
  ghost predicate Ready(max: nat, events: seq<Event>, c: Corr, i: nat) {
    && i + 1 == |c.status| && Shape(max, events, c) && Parked(events, c)
    && (forall j: nat :: j < i ==> Placed(events, c, j))
    && c.pair[i] == -1 && c.latency[i] == -1 && c.status[i] == NotApplicable
    && (forall k :: k in c.requests.entries ==> c.requests.entries[k] < i)
    && (forall k :: k in c.responses.entries ==> c.responses.entries[k] < i)
  }

  /** The columns of two states agree at `j`. */
  ghost predicate SameAt(c: Corr, c': Corr, j: int)
    requires |c.pair| == |c.latency| == |c.status| && |c'.pair| == |c'.latency| == |c'.status|
  {
    0 <= j < |c.status| && j < |c'.status| && c'.pair[j] == c.pair[j] && c'.latency[j] == c.latency[j] && c'.status[j] == c.status[j]
  }

  /** An event stays placed while its own slots, its partner's and its parked entry stay. */
  lemma PlacedStays(events: seq<Event>, c: Corr, c': Corr, j: nat)
    requires j < |c.status| <= |events| && |c.pair| == |c.latency| == |c.status| && |c'.pair| == |c'.latency| == |c'.status| <= |events|
    requires Placed(events, c, j) && SameAt(c, c', j)
    requires c.pair[j] != -1 ==> SameAt(c, c', c.pair[j])
    requires c.status[j] == Pending && events[j].kind == Request ==> c'.requests.Get(KeyForRequest(events[j])) == c.requests.Get(KeyForRequest(events[j]))
    ensures Placed(events, c', j)
  {
  }

  /** Nothing that is paired has `i`, which is not, as its partner. */
  lemma PartnerIsPaired(events: seq<Event>, c: Corr, j: nat, i: nat)
    requires j < |c.status| <= |events| && i < |c.status| && |c.pair| == |c.latency| == |c.status|
    requires Placed(events, c, j) && c.pair[j] != -1 && c.pair[i] == -1
    ensures c.pair[j] != i && 0 <= c.pair[j] < |c.pair|
  {
  }

  /** The pairing of `req` and `resp`, of which one is the newest event and the other was parked. */
  ghost predicate Pairing(events: seq<Event>, c: Corr, c0: Corr, i: nat, req: nat, resp: nat) {
    && IsRequest(events, req) && IsResponse(events, resp) && KeyForRequest(events[req]) == KeyForResponse(events[resp])
    && var key := KeyForRequest(events[req]);
       || (req == i && key in c.responses.entries && c.responses.entries[key] == resp && c0 == c.(responses := c.responses.Delete(key)))
       || (resp == i && key in c.requests.entries && c.requests.entries[key] == req && c0 == c.(requests := c.requests.Delete(key)))
  }

  /** The pairing concerns two distinct, unpaired, unsettled events. */
  lemma PairingFacts(max: nat, events: seq<Event>, c: Corr, c0: Corr, i: nat, req: nat, resp: nat)
    requires Ready(max, events, c, i) && Pairing(events, c, c0, i, req, resp)
    ensures req < |c.status| && resp < |c.status| && req != resp
    ensures c.pair[req] == -1 && c.pair[resp] == -1 && c.latency[resp] == -1
    ensures !Settled(c.status[req]) && !Settled(c.status[resp])
    ensures c0.pair == c.pair && c0.latency == c.latency && c0.status == c.status && c0.changed == c.changed
    ensures c0.requests.Valid() && |c0.requests.order| <= max && c0.responses.Valid() && |c0.responses.order| <= max
  {
    if req == i { WaitingResponse(events, c, resp); } else { WaitingRequest(events, c, req); }
    PairingDeletes(max, c, c0, KeyForRequest(events[req]));
  }

  lemma WaitingRequest(events: seq<Event>, c: Corr, j: nat)
    requires Parked(events, c) && IsRequest(events, j) && c.requests.Get(KeyForRequest(events[j])) == Some(j)
    ensures j < |c.status| && j < |c.pair| && c.pair[j] == -1 && c.status[j] == Pending
  {
  }

  lemma WaitingResponse(events: seq<Event>, c: Corr, j: nat)
    requires Parked(events, c) && IsResponse(events, j) && c.responses.Get(KeyForResponse(events[j])) == Some(j)
    requires |c.pair| == |c.latency| == |c.status| && (j < |c.status| ==> j < |events| && Placed(events, c, j))
    ensures j < |c.status| && c.pair[j] == -1 && c.status[j] == NotApplicable && c.latency[j] == -1
  {
  }

  lemma PairingDeletes(max: nat, c: Corr, c0: Corr, key: Key)
    requires c.requests.Valid() && c.responses.Valid() && |c.requests.order| <= max && |c.responses.order| <= max
    requires c0 == c.(responses := c.responses.Delete(key)) || c0 == c.(requests := c.requests.Delete(key))
    ensures c0.pair == c.pair && c0.latency == c.latency && c0.status == c.status && c0.changed == c.changed
    ensures c0.requests.Valid() && |c0.requests.order| <= max && c0.responses.Valid() && |c0.responses.order| <= max
  {
  }

  lemma PairColumns(events: seq<Event>, c: Corr, c0: Corr, req: nat, resp: nat)
    requires IsRequest(events, req) && IsResponse(events, resp) && KeyForRequest(events[req]) == KeyForResponse(events[resp])
    requires |c.pair| == |c.latency| == |c.status| && req < |c.status| && resp < |c.status| && req != resp
    requires c0.pair == c.pair && c0.latency == c.latency && c0.status == c.status
    requires c.latency[resp] == -1
    ensures
      var c' := Pair(events, c0, req, resp);
      && PairedWith(events, c', req, resp)
      && (forall j: nat :: j < |c.status| && j != req && j != resp ==> SameAt(c, c', j))
  {
  }

  lemma PairKeeps(max: nat, events: seq<Event>, c: Corr, c0: Corr, i: nat, req: nat, resp: nat)
    requires Ready(max, events, c, i) && Pairing(events, c, c0, i, req, resp)
    ensures req < |c0.status| && resp < |c0.status| && |c0.latency| == |c0.pair| == |c0.status|
    ensures Steps(max, events, c, Pair(events, c0, req, resp))
  {
    PairingFacts(max, events, c, c0, i, req, resp);
    PairColumns(events, c, c0, req, resp);
    var c' := Pair(events, c0, req, resp);
    assert Inv(max, events, c') by { PairInv(max, events, c, c0, i, req, resp); }
    assert KeepsSettled(c, c');
    PairChanges(events, c, c0, req, resp);
  }

  lemma PairChanges(events: seq<Event>, c: Corr, c0: Corr, req: nat, resp: nat)
    requires |c.pair| == |c.latency| == |c.status| <= |events| && req < |c.status| && resp < |c.status|
    requires c0.pair == c.pair && c0.latency == c.latency && c0.status == c.status && c0.changed == c.changed
    ensures ChangesListed(c, Pair(events, c0, req, resp))
  {
  }

  lemma PairInv(max: nat, events: seq<Event>, c: Corr, c0: Corr, i: nat, req: nat, resp: nat)
    requires Ready(max, events, c, i) && Pairing(events, c, c0, i, req, resp)
    requires req < |c0.status| && resp < |c0.status| && |c0.latency| == |c0.pair| == |c0.status|
    ensures Inv(max, events, Pair(events, c0, req, resp))
  {
    PairingFacts(max, events, c, c0, i, req, resp);
    TouchKeeps(c.changed, req, |c.status|);
    TouchKeeps(Touch(c.changed, req), resp, |c.status|);
    PairParked(max, events, c, c0, i, req, resp);
    var c' := Pair(events, c0, req, resp);
    assert Shape(max, events, c');
    forall j: nat | j < |c'.status| ensures Placed(events, c', j) {
      if j == req || j == resp {
        PairColumns(events, c, c0, req, resp);
      } else {
        PairPlaced(max, events, c, c0, i, req, resp, j);
      }
    }
  }

  lemma PairParked(max: nat, events: seq<Event>, c: Corr, c0: Corr, i: nat, req: nat, resp: nat)
    requires Ready(max, events, c, i) && Pairing(events, c, c0, i, req, resp)
    requires req < |c0.status| && resp < |c0.status| && |c0.latency| == |c0.pair| == |c0.status|
    ensures Parked(events, Pair(events, c0, req, resp))
  {
    PairingFacts(max, events, c, c0, i, req, resp);
    PairColumns(events, c, c0, req, resp);
    PairingMaps(max, events, c, c0, i, req, resp);
    StillParked(events, c, Pair(events, c0, req, resp), req, resp);
  }

  /** Neither of the two is parked any more, and nobody else is newly parked. */
  ghost predicate Sub(m: map<Key, nat>, m': map<Key, nat>, gone: nat) {
    forall k :: k in m' ==> k in m && m'[k] == m[k] && m[k] != gone
  }

  lemma PairingMaps(max: nat, events: seq<Event>, c: Corr, c0: Corr, i: nat, req: nat, resp: nat)
    requires Ready(max, events, c, i) && Pairing(events, c, c0, i, req, resp)
    ensures Sub(c.requests.entries, c0.requests.entries, req) && Sub(c.responses.entries, c0.responses.entries, resp)
  {
  }

  lemma StillParked(events: seq<Event>, c: Corr, c': Corr, req: nat, resp: nat)
    requires Parked(events, c) && |c.pair| == |c.latency| == |c.status| == |c'.status| && |c'.pair| == |c'.latency| == |c'.status|
    requires IsRequest(events, req) && IsResponse(events, resp)
    requires forall j: nat :: j < |c.status| && j != req && j != resp ==> SameAt(c, c', j)
    requires Sub(c.requests.entries, c'.requests.entries, req) && Sub(c.responses.entries, c'.responses.entries, resp)
    ensures Parked(events, c')
  {
    assert forall k :: k in c'.requests.entries ==> SameAt(c, c', c'.requests.entries[k]);
    assert forall k :: k in c'.responses.entries ==> SameAt(c, c', c'.responses.entries[k]);
  }

  lemma PairPlaced(max: nat, events: seq<Event>, c: Corr, c0: Corr, i: nat, req: nat, resp: nat, j: nat)
    requires Ready(max, events, c, i) && Pairing(events, c, c0, i, req, resp)
    requires req < |c0.status| && resp < |c0.status| && |c0.latency| == |c0.pair| == |c0.status|
    requires j < |c.status| && j != req && j != resp
    ensures Placed(events, Pair(events, c0, req, resp), j)
  {
    PairingFacts(max, events, c, c0, i, req, resp);
    PairColumns(events, c, c0, req, resp);
    assert Placed(events, c, j);
    if c.pair[j] != -1 {
      PartnerIsPaired(events, c, j, req);
      PartnerIsPaired(events, c, j, resp);
    }
    PlacedStays(events, c, Pair(events, c0, req, resp), j);
  }

  /** A transition that leaves pairs and latencies alone and rewrites the status only of `i` and `d`. */
  lemma StatusChanges(c: Corr, c': Corr, i: nat, d: Option<nat>)
    requires |c.pair| == |c.latency| == |c.status| == |c'.status| && c'.pair == c.pair && c'.latency == c.latency
    requires forall j :: 0 <= j < |c.status| && j != i && d != Some(j) ==> c'.status[j] == c.status[j]
    requires i < |c.status| && !Settled(c.status[i])
    requires d.Some? ==> d.value < |c.status| && !Settled(c.status[d.value]) && d.value in c'.changed
    requires c'.status[i] != c.status[i] ==> i in c'.changed
    requires forall j :: j in c.changed ==> j in c'.changed
    ensures KeepsSettled(c, c') && ChangesListed(c, c')
  {
  }

  // ---------- parking a request ----------

  /** The key whose request gives way: the displaced one, or the oldest when the map is full. */
  function GivesWay(max: nat, m: OMap<Key, nat>, key: Key): Option<Key> {
    if key in m.entries then Some(key)
    else if |m.order| < max || |m.order| == 0 then None
    else Some(m.order[0])
  }

  function LostIndex(max: nat, m: OMap<Key, nat>, key: Key): Option<nat>
    requires m.Valid()
  {
    var k := GivesWay(max, m, key);
    if k.Some? then Some(m.entries[k.value]) else None
  }

  lemma ParkRequestFields(max: nat, events: seq<Event>, c: Corr, key: Key, i: nat)
    requires 1 <= max && Ready(max, events, c, i) && key !in c.responses.entries
    ensures WellFormed(c)
    ensures
      var c' := ParkRequest(max, c, key, i);
      var d := LostIndex(max, c.requests, key);
      && c'.pair == c.pair && c'.latency == c.latency && c'.responses == c.responses
      && |c'.status| == |c.status| && c'.status[i] == Pending
      && (d.Some? ==> d.value < i && (c'.status[d.value] == Orphan || c'.status[d.value] == Unmatched))
      && (forall j :: 0 <= j < i && d != Some(j) ==> c'.status[j] == c.status[j])
      && c'.changed == Touch(if d.Some? then Touch(c.changed, d.value) else c.changed, i)
  {
    if key in c.requests.entries {
      ParkRequestOver(max, events, c, key, i);
    } else {
      ParkRequestNew(max, events, c, key, i);
    }
  }

  /** A waiting request of the same key is displaced. */
  lemma ParkRequestOver(max: nat, events: seq<Event>, c: Corr, key: Key, i: nat)
    requires 1 <= max && Ready(max, events, c, i) && key in c.requests.entries
    ensures WellFormed(c)
    ensures
      var c' := ParkRequest(max, c, key, i);
      var d := c.requests.entries[key];
      && LostIndex(max, c.requests, key) == Some(d) && d < i
      && c'.pair == c.pair && c'.latency == c.latency && c'.responses == c.responses
      && c'.status == c.status[d := Orphan][i := Pending] && c'.changed == Touch(Touch(c.changed, d), i)
  {
  }

  /** A new key: the oldest request goes if the map is full. */
  lemma ParkRequestNew(max: nat, events: seq<Event>, c: Corr, key: Key, i: nat)
    requires 1 <= max && Ready(max, events, c, i) && key !in c.requests.entries
    ensures WellFormed(c)
    ensures
      var c' := ParkRequest(max, c, key, i);
      var d := LostIndex(max, c.requests, key);
      && (d.Some? ==> d.value < i)
      && c'.pair == c.pair && c'.latency == c.latency && c'.responses == c.responses
      && c'.status == (if d.Some? then c.status[d.value := Unmatched] else c.status)[i := Pending]
      && c'.changed == Touch(if d.Some? then Touch(c.changed, d.value) else c.changed, i)
  {
  }

  lemma ParkRequestMap(max: nat, events: seq<Event>, c: Corr, key: Key, i: nat)
    requires 1 <= max && Ready(max, events, c, i) && WellFormed(c)
    ensures
      var m := c.requests;
      var m' := ParkRequest(max, c, key, i).requests;
      var k := GivesWay(max, m, key);
      && m'.Valid() && |m'.order| <= max
      && m'.Get(key) == Some(i)
      && (forall j :: j != key && k != Some(j) ==> m'.Get(j) == m.Get(j))
      && (k.Some? && k.value != key ==> k.value !in m'.entries)
  {
  }

  lemma ParkRequestKeeps(max: nat, events: seq<Event>, c: Corr, i: nat)
    requires 1 <= max && Ready(max, events, c, i) && IsRequest(events, i)
    requires KeyForRequest(events[i]) !in c.responses.entries
    ensures WellFormed(c)
    ensures Steps(max, events, c, ParkRequest(max, c, KeyForRequest(events[i]), i))
  {
    var key := KeyForRequest(events[i]);
    ParkRequestFields(max, events, c, key, i);
    ParkRequestInv(max, events, c, key, i);
    var d := LostIndex(max, c.requests, key);
    if d.Some? { LostWasPending(max, events, c, key, i, d.value); }
    StatusChanges(c, ParkRequest(max, c, key, i), i, d);
  }

  lemma ParkRequestInv(max: nat, events: seq<Event>, c: Corr, key: Key, i: nat)
    requires 1 <= max && Ready(max, events, c, i) && IsRequest(events, i) && key == KeyForRequest(events[i])
    requires key !in c.responses.entries && WellFormed(c)
    ensures Inv(max, events, ParkRequest(max, c, key, i))
  {
    ParkRequestFields(max, events, c, key, i);
    ParkRequestMap(max, events, c, key, i);
    var c' := ParkRequest(max, c, key, i);
    var d := LostIndex(max, c.requests, key);
    if d.Some? { TouchKeeps(c.changed, d.value, |c.status|); }
    TouchKeeps(if d.Some? then Touch(c.changed, d.value) else c.changed, i, |c.status|);
    assert Shape(max, events, c');
    ParkRequestParked(max, events, c, key, i);
    forall j: nat | j < |c'.status| ensures Placed(events, c', j) {
      ParkRequestPlaced(max, events, c, key, i, j);
    }
  }

  /** The request that gives way was pending, unpaired, and parked under the key that goes. */
  lemma LostWasPending(max: nat, events: seq<Event>, c: Corr, key: Key, i: nat, d: nat)
    requires Ready(max, events, c, i) && LostIndex(max, c.requests, key) == Some(d)
    ensures d < i && c.status[d] == Pending && c.pair[d] == -1 && IsRequest(events, d)
    ensures GivesWay(max, c.requests, key) == Some(KeyForRequest(events[d]))
  {
    assert GivesWay(max, c.requests, key).value in c.requests.entries;
  }

  lemma ParkRequestParked(max: nat, events: seq<Event>, c: Corr, key: Key, i: nat)
    requires 1 <= max && Ready(max, events, c, i) && IsRequest(events, i) && key == KeyForRequest(events[i])
    requires key !in c.responses.entries && WellFormed(c)
    ensures Parked(events, ParkRequest(max, c, key, i))
  {
    ParkRequestFields(max, events, c, key, i);
    ParkRequestMap(max, events, c, key, i);
    var c' := ParkRequest(max, c, key, i);
    var d := LostIndex(max, c.requests, key);
    forall k | k in c'.requests.entries
      ensures
        var j := c'.requests.entries[k];
        && j < |c'.status| && IsRequest(events, j) && KeyForRequest(events[j]) == k
        && c'.status[j] == Pending && c'.pair[j] == -1 && k !in c'.responses.entries
    {
      if k != key {
        assert c'.requests.Get(k) == c.requests.Get(k);
        var j := c.requests.entries[k];
        if d == Some(j) { LostWasPending(max, events, c, key, i, j); }
      }
    }
    if d.Some? { LostWasPending(max, events, c, key, i, d.value); }
  }

  lemma ParkRequestPlaced(max: nat, events: seq<Event>, c: Corr, key: Key, i: nat, j: nat)
    requires 1 <= max && Ready(max, events, c, i) && IsRequest(events, i) && key == KeyForRequest(events[i])
    requires key !in c.responses.entries && WellFormed(c) && j < |c.status|
    ensures var c' := ParkRequest(max, c, key, i); |c'.pair| == |c'.latency| == |c'.status| == |c.status| && Placed(events, c', j)
  {
    ParkRequestFields(max, events, c, key, i);
    ParkRequestMap(max, events, c, key, i);
    var c' := ParkRequest(max, c, key, i);
    var d := LostIndex(max, c.requests, key);
    if d.Some? { LostWasPending(max, events, c, key, i, d.value); }
    if j != i { assert Placed(events, c, j); }
    if j != i && d != Some(j) {
      if c.pair[j] != -1 {
        PartnerIsPaired(events, c, j, i);
        if d.Some? { PartnerIsPaired(events, c, j, d.value); }
      }
      PlacedStays(events, c, c', j);
    }
  }

  // ---------- parking a response ----------

  lemma ParkResponseFields(max: nat, events: seq<Event>, c: Corr, key: Key, i: nat)
    requires 1 <= max && Ready(max, events, c, i)
    ensures WellFormed(c)
    ensures
      var c' := ParkResponse(max, c, key, i);
      var d := c.responses.Get(key);
      var k := GivesWay(max, c.responses, key);
      && c'.pair == c.pair && c'.latency == c.latency && c'.requests == c.requests
      && (d.Some? ==> d.value < i && IsResponse(events, d.value) && c.status[d.value] == NotApplicable && c.pair[d.value] == -1)
      && c'.status == (if d.Some? then c.status[d.value := Orphan] else c.status)
      && c'.changed == (if d.Some? then Touch(c.changed, d.value) else c.changed)
      && c'.responses.Valid() && |c'.responses.order| <= max && c'.responses.Get(key) == Some(i)
      && (forall j :: j != key && j in c'.responses.entries ==> c'.responses.Get(j) == c.responses.Get(j))
  {
  }

  lemma ParkResponseKeeps(max: nat, events: seq<Event>, c: Corr, i: nat)
    requires 1 <= max && Ready(max, events, c, i) && IsResponse(events, i)
    requires KeyForResponse(events[i]) !in c.requests.entries
    ensures WellFormed(c)
    ensures Steps(max, events, c, ParkResponse(max, c, KeyForResponse(events[i]), i))
  {
    var key := KeyForResponse(events[i]);
    ParkResponseFields(max, events, c, key, i);
    ParkResponseInv(max, events, c, key, i);
    StatusChanges(c, ParkResponse(max, c, key, i), i, c.responses.Get(key));
  }

  lemma ParkResponseInv(max: nat, events: seq<Event>, c: Corr, key: Key, i: nat)
    requires 1 <= max && Ready(max, events, c, i) && IsResponse(events, i) && key == KeyForResponse(events[i])
    requires key !in c.requests.entries && WellFormed(c)
    ensures Inv(max, events, ParkResponse(max, c, key, i))
  {
    ParkResponseFields(max, events, c, key, i);
    var c' := ParkResponse(max, c, key, i);
    var d := c.responses.Get(key);
    if d.Some? { TouchKeeps(c.changed, d.value, |c.status|); }
    assert Shape(max, events, c');
    ParkResponseParked(max, events, c, key, i);
    forall j: nat | j < |c'.status| ensures Placed(events, c', j) {
      ParkResponsePlaced(max, events, c, key, i, j);
    }
  }

  lemma ParkResponseParked(max: nat, events: seq<Event>, c: Corr, key: Key, i: nat)
    requires 1 <= max && Ready(max, events, c, i) && IsResponse(events, i) && key == KeyForResponse(events[i])
    requires key !in c.requests.entries && WellFormed(c)
    ensures Parked(events, ParkResponse(max, c, key, i))
  {
    ParkResponseFields(max, events, c, key, i);
    NewlyParked(events, c, ParkResponse(max, c, key, i), key, i, c.responses.Get(key));
  }

  lemma NewlyParked(events: seq<Event>, c: Corr, c': Corr, key: Key, i: nat, d: Option<nat>)
    requires Parked(events, c) && i < |c.status| == |c.pair| && IsResponse(events, i) && key == KeyForResponse(events[i]) && key !in c.requests.entries
    requires c.status[i] == NotApplicable && c.pair[i] == -1 && d == c.responses.Get(key)
    requires d.Some? ==> d.value != i && d.value < |c.status| && IsResponse(events, d.value)
    requires c'.pair == c.pair && c'.requests == c.requests && c'.status == if d.Some? then c.status[d.value := Orphan] else c.status
    requires c'.responses.Get(key) == Some(i)
    requires forall j :: j != key && j in c'.responses.entries ==> c'.responses.Get(j) == c.responses.Get(j)
    ensures Parked(events, c')
  {
    assert forall k :: k in c'.responses.entries ==> c'.responses.Get(k) == Some(c'.responses.entries[k]);
  }

  lemma ParkResponsePlaced(max: nat, events: seq<Event>, c: Corr, key: Key, i: nat, j: nat)
    requires 1 <= max && Ready(max, events, c, i) && IsResponse(events, i) && key == KeyForResponse(events[i])
    requires WellFormed(c) && j < |c.status|
    ensures var c' := ParkResponse(max, c, key, i); |c'.pair| == |c'.latency| == |c'.status| == |c.status| && Placed(events, c', j)
  {
    ParkResponseFields(max, events, c, key, i);
    var c' := ParkResponse(max, c, key, i);
    var d := c.responses.Get(key);
    if j != i { assert Placed(events, c, j); }
    if j != i && d != Some(j) {
      if c.pair[j] != -1 {
        PartnerIsPaired(events, c, j, i);
        if d.Some? { PartnerIsPaired(events, c, j, d.value); }
      }
      PlacedStays(events, c, c', j);
    }
  }

  // ---------- timeouts ----------

  lemma FlushKeyKeeps(max: nat, events: seq<Event>, c: Corr, key: Key, now: int, timeout: int)
    requires Inv(max, events, c)
    ensures WellFormed(c) && Steps(max, events, c, FlushKey(events, c, key, now, timeout))
  {
    if key in c.requests.entries && now - events[c.requests.entries[key]].ts >= timeout {
      ExpireKeeps(max, events, c, key);
    }
  }

  lemma ExpireKeeps(max: nat, events: seq<Event>, c: Corr, key: Key)
    requires Inv(max, events, c) && key in c.requests.entries
    ensures Steps(max, events, c, SetStatus(c.(requests := c.requests.Delete(key)), c.requests.entries[key], Unmatched))
  {
    var d := c.requests.entries[key];
    var c' := SetStatus(c.(requests := c.requests.Delete(key)), d, Unmatched);
    ExpireShape(max, events, c, key);
    ExpireParked(max, events, c, key);
    forall j: nat | j < |c'.status| ensures Placed(events, c', j) {
      ExpirePlaced(max, events, c, key, j);
    }
    StatusChanges(c, c', d, None);
  }

  lemma ExpireShape(max: nat, events: seq<Event>, c: Corr, key: Key)
    requires Shape(max, events, c) && Parked(events, c) && key in c.requests.entries
    ensures Shape(max, events, SetStatus(c.(requests := c.requests.Delete(key)), c.requests.entries[key], Unmatched))
  {
    TouchKeeps(c.changed, c.requests.entries[key], |c.status|);
  }

  lemma ExpireParked(max: nat, events: seq<Event>, c: Corr, key: Key)
    requires Shape(max, events, c) && Parked(events, c) && key in c.requests.entries
    ensures Parked(events, SetStatus(c.(requests := c.requests.Delete(key)), c.requests.entries[key], Unmatched))
  {
  }

  lemma ExpirePlaced(max: nat, events: seq<Event>, c: Corr, key: Key, j: nat)
    requires Inv(max, events, c) && key in c.requests.entries && j < |c.status|
    ensures Placed(events, SetStatus(c.(requests := c.requests.Delete(key)), c.requests.entries[key], Unmatched), j)
  {
    var d := c.requests.entries[key];
    assert Placed(events, c, j);
    if j != d {
      if c.pair[j] != -1 { PartnerIsPaired(events, c, j, d); }
      PlacedStays(events, c, SetStatus(c.(requests := c.requests.Delete(key)), d, Unmatched), j);
    }
  }

  lemma StepsChain(max: nat, events: seq<Event>, a: Corr, b: Corr, c: Corr)
    requires Steps(max, events, a, b) && Steps(max, events, b, c)
    ensures Steps(max, events, a, c)
  {
  }

  lemma {:induction false} FlushKeysKeep(max: nat, events: seq<Event>, c: Corr, keys: seq<Key>, now: int, timeout: int)
    requires Inv(max, events, c)
    ensures WellFormed(c) && Steps(max, events, c, FlushKeys(events, c, keys, now, timeout))
    ensures |FlushKeys(events, c, keys, now, timeout).status| == |c.status|
    decreases |keys|
  {
    if |keys| > 0 {
      var c1 := FlushKey(events, c, keys[0], now, timeout);
      FlushKeyKeeps(max, events, c, keys[0], now, timeout);
      FlushKeysKeep(max, events, c1, keys[1..], now, timeout);
      StepsChain(max, events, c, c1, FlushKeys(events, c1, keys[1..], now, timeout));
    }
  }

  // ---------- the theorems ----------

  lemma OnRequestKeeps(max: nat, events: seq<Event>, c: Corr, i: nat)
    requires 1 <= max && Ready(max, events, c, i) && IsRequest(events, i)
    ensures WellFormed(c) && Steps(max, events, c, OnRequest(max, events, c, i))
    ensures |OnRequest(max, events, c, i).status| == i + 1
  {
    var key := KeyForRequest(events[i]);
    if key in c.responses.entries {
      PairKeeps(max, events, c, c.(responses := c.responses.Delete(key)), i, i, c.responses.entries[key]);
    } else {
      ParkRequestKeeps(max, events, c, i);
      ParkRequestFields(max, events, c, key, i);
    }
  }

  lemma OnResponseKeeps(max: nat, events: seq<Event>, c: Corr, i: nat)
    requires 1 <= max && Ready(max, events, c, i) && IsResponse(events, i)
    ensures WellFormed(c) && Steps(max, events, c, OnResponse(max, events, c, i))
    ensures |OnResponse(max, events, c, i).status| == i + 1
  {
    var key := KeyForResponse(events[i]);
    if key in c.requests.entries {
      PairKeeps(max, events, c, c.(requests := c.requests.Delete(key)), i, c.requests.entries[key], i);
    } else {
      ParkResponseKeeps(max, events, c, i);
      ParkResponseFields(max, events, c, key, i);
    }
  }

  lemma AfterSlots(max: nat, events: seq<Event>, c: Corr, c': Corr)
    requires Inv(max, events, c) && |c.status| < |events| && Steps(max, events, FreshSlots(c), c')
    ensures Steps(max, events, c, c')
  {
    FreshSlotsKeep(max, events, c);
  }

  /** One appended event keeps the invariant, revises no settled status, and lists every older row that
      it changes. */
  lemma AppendKeeps(max: nat, events: seq<Event>, c: Corr, i: nat)
    requires 1 <= max && Inv(max, events, c) && i == |c.status| < |events|
    ensures WellFormed(c) && Steps(max, events, c, OnAppend(max, events, c, i))
    ensures |OnAppend(max, events, c, i).status| == i + 1
  {
    var slots := FreshSlots(c);
    FreshSlotsKeep(max, events, c);
    assert Ready(max, events, slots, i);
    if IsRequest(events, i) {
      OnRequestKeeps(max, events, slots, i);
    } else if IsResponse(events, i) {
      OnResponseKeeps(max, events, slots, i);
    } else {
      assert Placed(events, slots, i);
    }
    AfterSlots(max, events, c, OnAppend(max, events, c, i));
  }

  /** A timeout flush keeps the invariant and settles only requests that were parked. */
  lemma FlushKeeps(max: nat, events: seq<Event>, c: Corr, now: int, timeout: int)
    requires Inv(max, events, c)
    ensures WellFormed(c) && Steps(max, events, c, Flush(events, c, now, timeout))
    ensures |Flush(events, c, now, timeout).status| == |c.status|
  {
    FlushKeysKeep(max, events, c, c.requests.order, now, timeout);
  }

  /** A request that has waited too long. */
  predicate Expired(events: seq<Event>, c: Corr, i: nat, now: int, timeout: int) {
    i < |c.status| && i < |events| && events[i].kind == Request && c.status[i] == Pending && now - events[i].ts >= timeout
  }

  lemma {:induction false} FlushKeysExact(max: nat, events: seq<Event>, c: Corr, keys: seq<Key>, now: int, timeout: int, i: nat)
    requires Inv(max, events, c) && WellFormed(c) && i < |c.status|
    ensures
      var c' := FlushKeys(events, c, keys, now, timeout);
      && |c'.status| == |c.status| && c'.pair == c.pair && c'.latency == c.latency
      && c'.status[i] == if Expired(events, c, i, now, timeout) && KeyForRequest(events[i]) in keys then Unmatched else c.status[i]
    decreases |keys|
  {
    if |keys| > 0 {
      var c1 := FlushKey(events, c, keys[0], now, timeout);
      FlushKeyKeeps(max, events, c, keys[0], now, timeout);
      FlushKeysExact(max, events, c1, keys[1..], now, timeout, i);
      FlushKeyExact(max, events, c, keys[0], now, timeout, i);
    }
  }

  lemma FlushKeyExact(max: nat, events: seq<Event>, c: Corr, key: Key, now: int, timeout: int, i: nat)
    requires Inv(max, events, c) && WellFormed(c) && i < |c.status|
    ensures
      var c' := FlushKey(events, c, key, now, timeout);
      && |c'.status| == |c.status| && c'.pair == c.pair && c'.latency == c.latency
      && c'.status[i] == if Expired(events, c, i, now, timeout) && KeyForRequest(events[i]) == key then Unmatched else c.status[i]
  {
    assert Placed(events, c, i);
  }

  /** A flush turns exactly the expired requests into unmatched ones, and touches nothing else. */
  lemma FlushExact(max: nat, events: seq<Event>, c: Corr, now: int, timeout: int, i: nat)
    requires Inv(max, events, c) && WellFormed(c) && i < |c.status|
    ensures
      var c' := Flush(events, c, now, timeout);
      && |c'.status| == |c.status| && c'.pair == c.pair && c'.latency == c.latency
      && c'.status[i] == if Expired(events, c, i, now, timeout) then Unmatched else c.status[i]
  {
    FlushKeysExact(max, events, c, c.requests.order, now, timeout, i);
    if Expired(events, c, i, now, timeout) { PendingIsParked(max, events, c, i); }
  }

  lemma PendingIsParked(max: nat, events: seq<Event>, c: Corr, i: nat)
    requires Inv(max, events, c) && i < |c.status| && events[i].kind == Request && c.status[i] == Pending
    ensures KeyForRequest(events[i]) in c.requests.order
  {
    assert Placed(events, c, i);
  }

  // ---------- runs ----------

  datatype Op = Arrive(ev: Event) | Tick(now: int, timeout: int) | Collect | Rotate

  datatype World = World(events: seq<Event>, corr: Corr)

  lemma InvGrows(max: nat, events: seq<Event>, more: seq<Event>, c: Corr)
    requires Inv(max, events, c)
    ensures Inv(max, events + more, c)
  {
    forall i: nat | i < |c.status| ensures Placed(events + more, c, i) {
      assert Placed(events, c, i);
    }
  }

  ghost predicate Reachable(max: nat, w: World) {
    Inv(max, w.events, w.corr) && |w.corr.status| == |w.events|
  }

  function Next(max: nat, w: World, op: Op): World
    requires Reachable(max, w)
  {
    match op
    case Arrive(ev) => World(w.events + [ev], OnAppend(max, w.events + [ev], w.corr, |w.events|))
    case Tick(now, timeout) => World(w.events, Flush(w.events, w.corr, now, timeout))
    case Collect => World(w.events, Drain(w.corr))
    case Rotate => World([], CLEAR)
  }

  /** Every operation keeps the invariant; all but a rotation also keep every settled status. */
  lemma NextKeeps(max: nat, w: World, op: Op)
    requires 1 <= max && Reachable(max, w)
    ensures Reachable(max, Next(max, w, op))
    ensures !op.Rotate? ==> KeepsSettled(w.corr, Next(max, w, op).corr)
    ensures op.Arrive? || op.Tick? ==> ChangesListed(w.corr, Next(max, w, op).corr)
  {
    match op
    case Arrive(ev) =>
      InvGrows(max, w.events, [ev], w.corr);
      AppendKeeps(max, w.events + [ev], w.corr, |w.events|);
    case Tick(now, timeout) =>
      FlushKeeps(max, w.events, w.corr, now, timeout);
    case Collect =>
      forall i: nat | i < |w.corr.status| ensures Placed(w.events, Drain(w.corr), i) {
        assert Placed(w.events, w.corr, i);
      }
    case Rotate =>
  }

  ghost function Run(max: nat, ops: seq<Op>): (w: World)
    requires 1 <= max
    ensures Reachable(max, w)
  {
    if |ops| == 0 then World([], CLEAR)
    else
      var before := Run(max, ops[..|ops| - 1]);
      NextKeeps(max, before, ops[|ops| - 1]);
      Next(max, before, ops[|ops| - 1])
  }

  /** `i` and `p` are one request and one response of the same key, linked both ways with one outcome. */
  ghost predicate Linked(events: seq<Event>, c: Corr, i: nat, p: int)
    requires i < |events| && |events| == |c.pair| == |c.status|
  {
    && 0 <= p < |events| && p != i && c.pair[i] == p && c.pair[p] == i
    && {events[i].kind, events[p].kind} == {Request, Response}
    && KeyOf(events[i]) == KeyOf(events[p])
    && c.status[i] == c.status[p] == (if (if events[i].kind == Response then events[i] else events[p]).failed then Error else Ok)
  }

  /** In every reachable state: pairing is a symmetric link between one request and one response of the
      same key and outcome; a request is pending exactly while parked; every request is either paired,
      pending, orphaned or unmatched; other events are never touched; and both maps are bounded. */
  lemma EveryRunIsConsistent(max: nat, ops: seq<Op>, i: nat)
    requires 1 <= max && i < |Run(max, ops).events|
    ensures var w := Run(max, ops); |w.corr.requests.order| <= max && |w.corr.responses.order| <= max
    ensures var w := Run(max, ops); w.corr.pair[i] != -1 ==> Linked(w.events, w.corr, i, w.corr.pair[i])
    ensures
      var events, c := Run(max, ops).events, Run(max, ops).corr;
      var paired := c.pair[i] != -1;
      var s := c.status[i];
      match events[i].kind
      case Request =>
        && (s == Pending <==> c.requests.Get(KeyForRequest(events[i])) == Some(i))
        && (paired <==> s == Ok || s == Error)
        && (paired || s == Pending || s == Orphan || s == Unmatched)
      case Response => (paired <==> s == Ok || s == Error) && (paired || s == NotApplicable || s == Orphan)
      case _ => !paired && s == NotApplicable
  {
    var w := Run(max, ops);
    assert Placed(w.events, w.corr, i);
  }
}
