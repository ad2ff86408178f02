/** Pairing requests with responses that may come in either order, in bounded memory. */
module CorrelatorSpec {
  import opened Collections
  import opened Events

  const MAX_PENDING: nat := 10_000
  const DEFAULT_TIMEOUT_MS: int := 30_000

  datatype Status = Ok | Error | Pending | Unmatched | Orphan | NotApplicable

  /** Per event: the partner's index or -1, the latency (requests only) or -1, the status.
      `changed` lists the indexes touched since the last drain, in the order of their first touch. */
  datatype Corr = Corr(
    requests: OMap<Key, nat>, responses: OMap<Key, nat>, changed: seq<nat>,
    pair: seq<int>, latency: seq<int>, status: seq<Status>)

  const CLEAR := Corr(Empty(), Empty(), [], [], [], [])

  // ---------- readers ----------

  function PairOf(c: Corr, i: nat): Option<int> {
    if i < |c.pair| && c.pair[i] >= 0 then Some(c.pair[i]) else None
  }

  function LatencyOf(c: Corr, i: nat): Option<int> {
    if i < |c.latency| && c.latency[i] >= 0 then Some(c.latency[i]) else None
  }

  function StatusOf(c: Corr, i: nat): Status {
    if i < |c.status| then c.status[i] else NotApplicable
  }

  // ---------- transitions ----------

  /** The columns have one length, and the maps hold indexes into them. */
  ghost predicate WellFormed(c: Corr) {
    && |c.pair| == |c.latency| == |c.status|
    && c.requests.Valid() && c.responses.Valid()
    && (forall k :: k in c.requests.entries ==> c.requests.entries[k] < |c.status|)
    && (forall k :: k in c.responses.entries ==> c.responses.entries[k] < |c.status|)
  }

  function Touch(changed: seq<nat>, i: nat): seq<nat> {
    if i in changed then changed else changed + [i]
  }

  function SetStatus(c: Corr, i: nat, s: Status): Corr
    requires i < |c.status|
  {
    c.(status := c.status[i := s], changed := Touch(c.changed, i))
  }

  /** `#pair` */
  function Pair(events: seq<Event>, c: Corr, req: nat, resp: nat): Corr
    requires req < |events| && resp < |events|
    requires req < |c.status| && resp < |c.status| && |c.latency| == |c.pair| == |c.status|
  {
    var s := if events[resp].failed then Error else Ok;
    c.(pair := c.pair[req := resp][resp := req],
       latency := c.latency[req := events[resp].ts - events[req].ts],
       status := c.status[req := s][resp := s],
       changed := Touch(Touch(c.changed, req), resp))
  }

  /** Makes room for a request under a new key: the first key in map order goes. */
  function EvictRequest(max: nat, c: Corr): Corr
    requires WellFormed(c)
  {
    if |c.requests.order| < max || |c.requests.order| == 0 then c
    else
      var oldest := c.requests.order[0];
      SetStatus(c.(requests := c.requests.Delete(oldest)), c.requests.entries[oldest], Unmatched)
  }

  function EvictResponse(max: nat, c: Corr): Corr {
    if |c.responses.order| < max || |c.responses.order| == 0 then c
    else c.(responses := c.responses.Delete(c.responses.order[0]))
  }

  function ParkRequest(max: nat, c: Corr, key: Key, i: nat): Corr
    requires WellFormed(c) && i < |c.status|
  {
    var room :=
      if key in c.requests.entries then SetStatus(c, c.requests.entries[key], Orphan) else EvictRequest(max, c);
    SetStatus(room.(requests := room.requests.Set(key, i)), i, Pending)
  }

  function ParkResponse(max: nat, c: Corr, key: Key, i: nat): Corr
    requires WellFormed(c) && i < |c.status|
  {
    var room :=
      if key in c.responses.entries then SetStatus(c, c.responses.entries[key], Orphan) else EvictResponse(max, c);
    room.(responses := room.responses.Set(key, i))
  }

  function OnRequest(max: nat, events: seq<Event>, c: Corr, i: nat): Corr
    requires WellFormed(c) && i < |c.status| <= |events|
  {
    var key := KeyForRequest(events[i]);
    if key in c.responses.entries
    then Pair(events, c.(responses := c.responses.Delete(key)), i, c.responses.entries[key])
    else ParkRequest(max, c, key, i)
  }

  function OnResponse(max: nat, events: seq<Event>, c: Corr, i: nat): Corr
    requires WellFormed(c) && i < |c.status| <= |events|
  {
    var key := KeyForResponse(events[i]);
    if key in c.requests.entries
    then Pair(events, c.(requests := c.requests.Delete(key)), c.requests.entries[key], i)
    else ParkResponse(max, c, key, i)
  }

  function FreshSlots(c: Corr): Corr {
    c.(pair := c.pair + [-1], latency := c.latency + [-1], status := c.status + [NotApplicable])
  }

  /** The store has appended event `i`: fresh slots, then pairing. */
  function OnAppend(max: nat, events: seq<Event>, c: Corr, i: nat): Corr
    requires WellFormed(c) && i == |c.status| < |events|
  {
    match events[i].kind
    case Request => OnRequest(max, events, FreshSlots(c), i)
    case Response => OnResponse(max, events, FreshSlots(c), i)
    case _ => FreshSlots(c)
  }

  /** Requests of `keys` older than the timeout become unmatched and are forgotten. */
  function FlushKeys(events: seq<Event>, c: Corr, keys: seq<Key>, now: int, timeout: int): Corr
    requires WellFormed(c) && |c.status| <= |events|
    decreases |keys|
  {
    if |keys| == 0 then c
    else FlushKeys(events, FlushKey(events, c, keys[0], now, timeout), keys[1..], now, timeout)
  }

  function FlushKey(events: seq<Event>, c: Corr, key: Key, now: int, timeout: int): (r: Corr)
    requires WellFormed(c) && |c.status| <= |events|
    ensures WellFormed(r) && |r.status| == |c.status|
  {
    if key in c.requests.entries && now - events[c.requests.entries[key]].ts >= timeout
    then SetStatus(c.(requests := c.requests.Delete(key)), c.requests.entries[key], Unmatched)
    else c
  }

  function Flush(events: seq<Event>, c: Corr, now: int, timeout: int): Corr
    requires WellFormed(c) && |c.status| <= |events|
  {
    FlushKeys(events, c, c.requests.order, now, timeout)
  }

  function Drain(c: Corr): Corr {
    c.(changed := [])
  }

  // ---------- the invariant ----------

  predicate IsRequest(events: seq<Event>, i: int) {
    0 <= i < |events| && events[i].kind == Request
  }

  predicate IsResponse(events: seq<Event>, i: int) {
    0 <= i < |events| && events[i].kind == Response
  }

  ghost predicate Shape(max: nat, events: seq<Event>, c: Corr) {
    && |c.pair| == |c.latency| == |c.status| <= |events|
    && c.requests.Valid() && c.responses.Valid()
    && |c.requests.order| <= max && |c.responses.order| <= max
    && NoDup(c.changed) && (forall i :: i in c.changed ==> i < |c.status|)
  }

  /** What is parked is unpaired, waits under its own key, and never on both sides at once. */
  ghost predicate Parked(events: seq<Event>, c: Corr) {
    && (forall k :: k in c.requests.entries ==>
          var i := c.requests.entries[k];
          i < |c.status| && i < |c.pair| && IsRequest(events, i) && KeyForRequest(events[i]) == k && c.status[i] == Pending && c.pair[i] == -1)
    && (forall k :: k in c.responses.entries ==>
          var i := c.responses.entries[k];
          i < |c.status| && i < |c.pair| && IsResponse(events, i) && KeyForResponse(events[i]) == k && c.status[i] == NotApplicable && c.pair[i] == -1)
    && (forall k :: k in c.requests.entries ==> k !in c.responses.entries)
  }

  ghost predicate PairedWith(events: seq<Event>, c: Corr, req: int, resp: int) {
    && IsRequest(events, req) && IsResponse(events, resp)
    && req < |c.pair| && resp < |c.pair| && |c.latency| == |c.pair| == |c.status|
    && c.pair[req] == resp && c.pair[resp] == req
    && KeyForRequest(events[req]) == KeyForResponse(events[resp])
    && c.status[req] == c.status[resp] == (if events[resp].failed then Error else Ok)
    && c.latency[req] == events[resp].ts - events[req].ts
    && c.latency[resp] == -1
  }

  /** Every event is in exactly one of the situations its kind allows. */
  ghost predicate Placed(events: seq<Event>, c: Corr, i: nat)
    requires i < |events| && i < |c.status| && |c.pair| == |c.latency| == |c.status|
  {
    if c.pair[i] != -1 then PairedWith(events, c, i, c.pair[i]) || PairedWith(events, c, c.pair[i], i)
    else
      && c.latency[i] == -1
      && match events[i].kind
         case Request =>
           || (c.status[i] == Pending && c.requests.Get(KeyForRequest(events[i])) == Some(i))
           || c.status[i] == Orphan || c.status[i] == Unmatched
         case Response => c.status[i] == NotApplicable || c.status[i] == Orphan
         case _ => c.status[i] == NotApplicable
  }

  ghost predicate Inv(max: nat, events: seq<Event>, c: Corr) {
    && Shape(max, events, c)
    && Parked(events, c)
    && forall i: nat :: i < |c.status| ==> Placed(events, c, i)
  }

  /** A settled status is never revised, and settled pairs stay. */
  predicate Settled(s: Status) {
    s == Ok || s == Error || s == Orphan || s == Unmatched
  }

  ghost predicate KeepsSettled(c: Corr, c': Corr) {
    && |c.status| <= |c'.status| && |c.pair| == |c.status| && |c'.pair| == |c'.status|
    && forall i :: 0 <= i < |c.status| && Settled(c.status[i]) ==> c'.status[i] == c.status[i] && c'.pair[i] == c.pair[i]
  }

  /** Whatever differs between two states at an old index is listed as changed. */
  ghost predicate ChangesListed(c: Corr, c': Corr) {
    && (forall i :: i in c.changed ==> i in c'.changed)
    && forall i: nat :: i < |c.status| && (StatusOf(c, i) != StatusOf(c', i) || PairOf(c, i) != PairOf(c', i) || LatencyOf(c, i) != LatencyOf(c', i))
         ==> i in c'.changed
  }
}
