/** Traffic on one key never disturbs another: below the bound, the events of a key fare as under a three-state
    automaton that sees nothing but them and the timeout flushes. */
module CorrelatorLocality {
  import opened Collections
  import opened Events
  import opened CorrelatorSpec
  import opened CorrelatorLaws

  datatype Slot = Vacant | RequestWaits(i: nat) | ResponseWaits(i: nat)

  /** The automaton's memory: who waits, and the outcome of every event of the key so far. */
  datatype Local = Local(slot: Slot, partner: map<nat, nat>, outcome: map<nat, Status>)

  const IDLE := Local(Vacant, map[], map[])

  function Verdict(resp: Event): Status {
    if resp.failed then Error else Ok
  }

  function Meet(events: seq<Event>, a: Local, req: nat, resp: nat): Local
    requires resp < |events|
  {
    var s := Verdict(events[resp]);
    Local(Vacant, a.partner[req := resp][resp := req], a.outcome[req := s][resp := s])
  }

  function LocalStep(events: seq<Event>, a: Local, i: nat): Local
    requires i < |events| && (a.slot.ResponseWaits? ==> a.slot.i < |events|)
  {
    if events[i].kind == Request then
      match a.slot
      case Vacant => a.(slot := RequestWaits(i), outcome := a.outcome[i := Pending])
      case RequestWaits(j) => a.(slot := RequestWaits(i), outcome := a.outcome[j := Orphan][i := Pending])
      case ResponseWaits(j) => Meet(events, a, i, j)
    else
      match a.slot
      case Vacant => a.(slot := ResponseWaits(i), outcome := a.outcome[i := NotApplicable])
      case RequestWaits(j) => Meet(events, a, j, i)
      case ResponseWaits(j) => a.(slot := ResponseWaits(i), outcome := a.outcome[j := Orphan][i := NotApplicable])
  }

  /** A flush: a request that has waited too long is given up. */
  function LocalTick(events: seq<Event>, a: Local, now: int, timeout: int): Local
    requires a.slot.RequestWaits? ==> a.slot.i < |events|
  {
    if a.slot.RequestWaits? && now - events[a.slot.i].ts >= timeout
    then Local(Vacant, a.partner, a.outcome[a.slot.i := Unmatched])
    else a
  }

  /** What happens over time: the next event arrives, or pending requests are checked for a timeout. */
  datatype Beat = Arrival | Timeout(now: int, timeout: int)

  /** How many events have arrived. */
  function Arrived(beats: seq<Beat>): nat {
    if |beats| == 0 then 0 else Arrived(beats[..|beats| - 1]) + if beats[|beats| - 1].Arrival? then 1 else 0
  }

  /** What a key hears of it. */
  datatype Heard = Own(i: nat) | Flushed(now: int, timeout: int)

  predicate HasKey(ev: Event, k: Key) {
    (ev.kind == Request || ev.kind == Response) && KeyOf(ev) == k
  }

  ghost predicate Within(trace: seq<Heard>, n: nat) {
    forall j :: 0 <= j < |trace| && trace[j].Own? ==> trace[j].i < n
  }

  /** What key `k` hears: its own events, and every flush. */
  function Trace(events: seq<Event>, k: Key, beats: seq<Beat>): (t: seq<Heard>)
    requires Arrived(beats) <= |events|
    ensures Within(t, Arrived(beats))
  {
    if |beats| == 0 then []
    else
      var front := beats[..|beats| - 1];
      match beats[|beats| - 1]
      case Arrival => if HasKey(events[Arrived(front)], k) then Trace(events, k, front) + [Own(Arrived(front))] else Trace(events, k, front)
      case Timeout(now, timeout) => Trace(events, k, front) + [Flushed(now, timeout)]
  }

  predicate SlotWithin(a: Local, n: nat) {
    a.slot.Vacant? || a.slot.i < n
  }

  function LocalNext(events: seq<Event>, a: Local, h: Heard): (a': Local)
    requires SlotWithin(a, |events|) && (h.Own? ==> h.i < |events|)
    ensures SlotWithin(a', |events|)
  {
    match h
    case Own(i) => LocalStep(events, a, i)
    case Flushed(now, timeout) => LocalTick(events, a, now, timeout)
  }

  /** The automaton run over what its key hears, and nothing else. */
  function LocalRun(events: seq<Event>, trace: seq<Heard>): (a: Local)
    requires Within(trace, |events|)
    ensures SlotWithin(a, |events|)
  {
    if |trace| == 0 then IDLE
    else LocalNext(events, LocalRun(events, trace[..|trace| - 1]), trace[|trace| - 1])
  }

  /** The correlator over time. */
  ghost function After(max: nat, events: seq<Event>, beats: seq<Beat>): (c: Corr)
    requires 1 <= max && Arrived(beats) <= |events|
    ensures Inv(max, events, c) && |c.status| == Arrived(beats)
  {
    if |beats| == 0 then CLEAR
    else
      var front := beats[..|beats| - 1];
      var c := After(max, events, front);
      InvIsWellFormed(max, events, c);
      match beats[|beats| - 1]
      case Arrival =>
        AppendKeeps(max, events, c, Arrived(front));
        OnAppend(max, events, c, Arrived(front))
      case Timeout(now, timeout) =>
        FlushKeeps(max, events, c, now, timeout);
        Flush(events, c, now, timeout)
  }

  /** No map ever reaches its bound. */
  ghost predicate NeverFull(max: nat, events: seq<Event>, beats: seq<Beat>)
    requires 1 <= max && Arrived(beats) <= |events|
    decreases |beats|
  {
    |beats| == 0 ||
    var front := beats[..|beats| - 1];
    NeverFull(max, events, front) && Room(max, After(max, events, front))
  }

  function SlotOf(c: Corr, k: Key): Slot {
    if k in c.requests.entries then RequestWaits(c.requests.entries[k])
    else if k in c.responses.entries then ResponseWaits(c.responses.entries[k])
    else Vacant
  }

  /** The correlator and the automaton of `k` agree on everything the key has seen. */
  ghost predicate Agrees(events: seq<Event>, c: Corr, k: Key, a: Local, n: nat)
    requires |c.pair| == |c.status| == n <= |events|
  {
    && a.slot == SlotOf(c, k)
    && (forall i: nat :: i in a.outcome <==> i < n && HasKey(events[i], k))
    && (forall i: nat :: i in a.partner ==> i in a.outcome)
    && (forall i: nat :: i in a.outcome ==> c.status[i] == a.outcome[i])
    && (forall i: nat :: i in a.outcome ==> c.pair[i] == (if i in a.partner then a.partner[i] else -1))
  }

  /** What an event does to its key: `waiter` is who waits there, `meets` whether the two pair up. */
  datatype Move = Move(waiter: Option<nat>, meets: bool, slot: Slot, mine: Status, theirs: Status)

  function MoveOf(events: seq<Event>, s: Slot, i: nat): Move
    requires i < |events| && (s != Vacant ==> s.i < |events|)
  {
    var stay := if events[i].kind == Request then RequestWaits(i) else ResponseWaits(i);
    var initial := if events[i].kind == Request then Pending else NotApplicable;
    match s
    case Vacant => Move(None, false, stay, initial, initial)
    case RequestWaits(j) =>
      if events[i].kind == Request then Move(Some(j), false, stay, initial, Orphan)
      else Move(Some(j), true, Vacant, Verdict(events[i]), Verdict(events[i]))
    case ResponseWaits(j) =>
      if events[i].kind == Request then Move(Some(j), true, Vacant, Verdict(events[j]), Verdict(events[j]))
      else Move(Some(j), false, stay, initial, Orphan)
  }

  /** The correlator makes the move `m` on key `k`, and nothing else. */
  ghost predicate Moves(c: Corr, c': Corr, k: Key, i: nat, m: Move) {
    && |c.pair| == |c.status| == i && |c'.pair| == |c'.status| == i + 1
    && (m.waiter.Some? ==> m.waiter.value < i) && (m.meets ==> m.waiter.Some?)
    && (forall k' :: k' != k ==> SlotOf(c', k') == SlotOf(c, k'))
    && SlotOf(c', k) == m.slot
    && c'.status[i] == m.mine && c'.pair[i] == (if m.meets then m.waiter.value else -1)
    && (forall j: nat :: j < i ==> c'.status[j] == (if m.waiter == Some(j) then m.theirs else c.status[j]))
    && (forall j: nat :: j < i ==> c'.pair[j] == (if m.meets && m.waiter == Some(j) then i else c.pair[j]))
  }

  ghost predicate Disjoint(c: Corr) {
    forall k :: k in c.requests.entries ==> k !in c.responses.entries
  }

  /** Nothing has to be evicted. */
  predicate Room(max: nat, c: Corr) {
    |c.requests.order| < max && |c.responses.order| < max
  }

  /** Below the bound, the correlator makes exactly the move of its key's slot. */
  lemma RequestMoves(max: nat, events: seq<Event>, c: Corr, i: nat, s: Slot)
    requires WellFormed(c) && Disjoint(c) && i == |c.status| < |events| && Room(max, c)
    requires events[i].kind == Request && s == SlotOf(c, KeyOf(events[i]))
    ensures s != Vacant ==> s.i < i
    ensures Moves(c, OnAppend(max, events, c, i), KeyOf(events[i]), i, MoveOf(events, s, i))
  {
    if s.ResponseWaits? {
      RequestMeets(max, events, c, i, s.i);
    } else {
      RequestParks(max, events, c, i, s);
    }
  }

  lemma RequestParks(max: nat, events: seq<Event>, c: Corr, i: nat, s: Slot)
    requires WellFormed(c) && Disjoint(c) && i == |c.status| < |events| && Room(max, c)
    requires events[i].kind == Request && s == SlotOf(c, KeyOf(events[i])) && !s.ResponseWaits?
    ensures s != Vacant ==> s.i < i
    ensures Moves(c, OnAppend(max, events, c, i), KeyOf(events[i]), i, MoveOf(events, s, i))
  {
    assert OnAppend(max, events, c, i) == ParkRequest(max, FreshSlots(c), KeyForRequest(events[i]), i);
  }

  lemma RequestMeets(max: nat, events: seq<Event>, c: Corr, i: nat, j: nat)
    requires WellFormed(c) && Disjoint(c) && i == |c.status| < |events|
    requires events[i].kind == Request && SlotOf(c, KeyOf(events[i])) == ResponseWaits(j)
    ensures j < i && Moves(c, OnAppend(max, events, c, i), KeyOf(events[i]), i, MoveOf(events, ResponseWaits(j), i))
  {
    var slots := FreshSlots(c);
    var key := KeyForRequest(events[i]);
    MeetMoves(events, c, slots.(responses := slots.responses.Delete(key)), key, i, i, j);
  }

  /** The older of the two leaves its slot, and the pair is linked. */
  lemma MeetMoves(events: seq<Event>, c: Corr, c0: Corr, key: Key, i: nat, req: nat, resp: nat)
    requires WellFormed(c) && Disjoint(c) && i == |c.status| < |events| && req <= i && resp <= i && req != resp && (req == i || resp == i)
    requires c0.pair == c.pair + [-1] && c0.status == c.status + [NotApplicable] && |c0.latency| == i + 1
    requires events[i].kind == if req == i then Request else Response
    requires if req == i then key in c.responses.entries && c.responses.entries[key] == resp else key in c.requests.entries && c.requests.entries[key] == req
    requires c0.requests.entries == if req == i then c.requests.entries else c.requests.entries - {key}
    requires c0.responses.entries == if req == i then c.responses.entries - {key} else c.responses.entries
    ensures
      var s := if req == i then ResponseWaits(resp) else RequestWaits(req);
      Moves(c, Pair(events, c0, req, resp), key, i, MoveOf(events, s, i))
  {
  }

  lemma ResponseMoves(max: nat, events: seq<Event>, c: Corr, i: nat, s: Slot)
    requires WellFormed(c) && Disjoint(c) && i == |c.status| < |events| && Room(max, c)
    requires events[i].kind == Response && s == SlotOf(c, KeyOf(events[i]))
    ensures s != Vacant ==> s.i < i
    ensures Moves(c, OnAppend(max, events, c, i), KeyOf(events[i]), i, MoveOf(events, s, i))
  {
    if s.RequestWaits? {
      ResponseMeets(max, events, c, i, s.i);
    } else {
      ResponseParks(max, events, c, i, s);
    }
  }

  lemma ResponseParks(max: nat, events: seq<Event>, c: Corr, i: nat, s: Slot)
    requires WellFormed(c) && Disjoint(c) && i == |c.status| < |events| && Room(max, c)
    requires events[i].kind == Response && s == SlotOf(c, KeyOf(events[i])) && !s.RequestWaits?
    ensures s != Vacant ==> s.i < i
    ensures Moves(c, OnAppend(max, events, c, i), KeyOf(events[i]), i, MoveOf(events, s, i))
  {
    assert OnAppend(max, events, c, i) == ParkResponse(max, FreshSlots(c), KeyForResponse(events[i]), i);
  }

  lemma ResponseMeets(max: nat, events: seq<Event>, c: Corr, i: nat, j: nat)
    requires WellFormed(c) && Disjoint(c) && i == |c.status| < |events|
    requires events[i].kind == Response && SlotOf(c, KeyOf(events[i])) == RequestWaits(j)
    ensures j < i && Moves(c, OnAppend(max, events, c, i), KeyOf(events[i]), i, MoveOf(events, RequestWaits(j), i))
  {
    var slots := FreshSlots(c);
    var key := KeyForResponse(events[i]);
    MeetMoves(events, c, slots.(requests := slots.requests.Delete(key)), key, i, j, i);
  }

  lemma AppendMoves(max: nat, events: seq<Event>, c: Corr, i: nat, s: Slot)
    requires Inv(max, events, c) && WellFormed(c) && i == |c.status| < |events|
    requires Room(max, c)
    requires (events[i].kind == Request || events[i].kind == Response) && s == SlotOf(c, KeyOf(events[i]))
    ensures s != Vacant ==> s.i < i && HasKey(events[s.i], KeyOf(events[i])) && c.pair[s.i] == -1
    ensures Moves(c, OnAppend(max, events, c, i), KeyOf(events[i]), i, MoveOf(events, s, i))
  {
    OwnerOfSlot(max, events, c, KeyOf(events[i]));
    if events[i].kind == Request {
      RequestMoves(max, events, c, i, s);
    } else {
      ResponseMoves(max, events, c, i, s);
    }
  }

  /** The automaton makes the same move. */
  lemma LocalMoves(events: seq<Event>, a: Local, i: nat)
    requires i < |events| && (events[i].kind == Request || events[i].kind == Response)
    requires a.slot != Vacant ==> a.slot.i < i
    ensures
      var a' := LocalStep(events, a, i);
      var m := MoveOf(events, a.slot, i);
      && a'.slot == m.slot
      && a'.outcome == (if m.waiter.Some? then a.outcome[m.waiter.value := m.theirs] else a.outcome)[i := m.mine]
      && a'.partner == (if m.meets then a.partner[i := m.waiter.value][m.waiter.value := i] else a.partner)
  {
    var m := MoveOf(events, a.slot, i);
    if m.meets {
      var j := m.waiter.value;
      assert a.outcome[i := m.mine][j := m.theirs] == a.outcome[j := m.theirs][i := m.mine];
    }
  }

  // ---------- flushes ----------

  lemma {:induction false} FlushLeavesResponses(events: seq<Event>, c: Corr, keys: seq<Key>, now: int, timeout: int)
    requires WellFormed(c) && |c.status| <= |events|
    ensures FlushKeys(events, c, keys, now, timeout).responses == c.responses
    decreases |keys|
  {
    if |keys| > 0 { FlushLeavesResponses(events, FlushKey(events, c, keys[0], now, timeout), keys[1..], now, timeout); }
  }

  /** A request is pending exactly while it waits in the slot of its key. */
  lemma PendingWaits(max: nat, events: seq<Event>, c: Corr, i: nat)
    requires Inv(max, events, c) && i < |c.status| && events[i].kind == Request
    ensures c.status[i] == Pending <==> SlotOf(c, KeyForRequest(events[i])) == RequestWaits(i)
  {
    assert Placed(events, c, i);
  }

  /** The slot of a key after a flush. */
  lemma FlushedSlot(max: nat, events: seq<Event>, c: Corr, now: int, timeout: int, k: Key, c': Corr)
    requires Inv(max, events, c) && WellFormed(c) && c' == Flush(events, c, now, timeout) && Inv(max, events, c')
    ensures
      var s := SlotOf(c, k);
      SlotOf(c', k) == if s.RequestWaits? && Expired(events, c, s.i, now, timeout) then Vacant else s
  {
    FlushLeavesResponses(events, c, c.requests.order, now, timeout);
    if k in c.requests.entries {
      var i := c.requests.entries[k];
      FlushExact(max, events, c, now, timeout, i);
      PendingWaits(max, events, c', i);
    }
    if k in c'.requests.entries {
      var i := c'.requests.entries[k];
      FlushExactLength(max, events, c, now, timeout);
      FlushExact(max, events, c, now, timeout, i);
      PendingWaits(max, events, c, i);
    }
  }

  lemma FlushExactLength(max: nat, events: seq<Event>, c: Corr, now: int, timeout: int)
    requires Inv(max, events, c) && WellFormed(c)
    ensures |Flush(events, c, now, timeout).status| == |c.status|
  {
    FlushKeeps(max, events, c, now, timeout);
  }

  /** A flush rewrites the status of expired requests, and no other column. */
  ghost predicate Flushes(events: seq<Event>, c: Corr, c': Corr, now: int, timeout: int) {
    && |c'.status| == |c.status| && c'.pair == c.pair
    && forall i: nat :: i < |c.status| ==> c'.status[i] == if Expired(events, c, i, now, timeout) then Unmatched else c.status[i]
  }

  lemma FlushFlushes(max: nat, events: seq<Event>, c: Corr, now: int, timeout: int)
    requires Inv(max, events, c) && WellFormed(c)
    ensures Flushes(events, c, Flush(events, c, now, timeout), now, timeout)
  {
    FlushExactLength(max, events, c, now, timeout);
    FlushExactPairs(max, events, c, now, timeout);
    forall i: nat | i < |c.status|
      ensures Flush(events, c, now, timeout).status[i] == if Expired(events, c, i, now, timeout) then Unmatched else c.status[i]
    {
      FlushExact(max, events, c, now, timeout, i);
    }
  }

  lemma FlushExactPairs(max: nat, events: seq<Event>, c: Corr, now: int, timeout: int)
    requires Inv(max, events, c) && WellFormed(c)
    ensures Flush(events, c, now, timeout).pair == c.pair
  {
    if |c.status| > 0 {
      FlushExact(max, events, c, now, timeout, 0);
    } else {
      FlushExactLength(max, events, c, now, timeout);
      FlushKeeps(max, events, c, now, timeout);
    }
  }

  /** A flush does to every key what it does to its automaton. */
  lemma AgreesFlushed(max: nat, events: seq<Event>, c: Corr, k: Key, a: Local, now: int, timeout: int, c': Corr)
    requires Inv(max, events, c) && WellFormed(c) && c' == Flush(events, c, now, timeout) && Inv(max, events, c')
    requires |c.status| == |c.pair| && Agrees(events, c, k, a, |c.status|) && SlotWithin(a, |events|)
    ensures |c'.status| == |c'.pair| == |c.status| && Agrees(events, c', k, LocalTick(events, a, now, timeout), |c.status|)
  {
    FlushFlushes(max, events, c, now, timeout);
    FlushedSlot(max, events, c, now, timeout, k, c');
    OwnerOfSlot(max, events, c, k);
    forall i: nat | i < |c.status| && HasKey(events[i], k) && Expired(events, c, i, now, timeout) ensures a.slot == RequestWaits(i) {
      PendingWaits(max, events, c, i);
    }
    if a.slot.RequestWaits? { PendingWaits(max, events, c, a.slot.i); }
    AgreesTicked(events, c, c', k, a, now, timeout);
  }

  lemma AgreesTicked(events: seq<Event>, c: Corr, c': Corr, k: Key, a: Local, now: int, timeout: int)
    requires |c.pair| == |c.status| <= |events| && Agrees(events, c, k, a, |c.status|) && Flushes(events, c, c', now, timeout)
    requires a.slot.RequestWaits? ==>
      a.slot.i < |c.status| && HasKey(events[a.slot.i], k) && events[a.slot.i].kind == Request && c.status[a.slot.i] == Pending
    requires forall i: nat :: i < |c.status| && HasKey(events[i], k) && Expired(events, c, i, now, timeout) ==> a.slot == RequestWaits(i)
    requires SlotOf(c', k) == if a.slot.RequestWaits? && Expired(events, c, a.slot.i, now, timeout) then Vacant else a.slot
    ensures Agrees(events, c', k, LocalTick(events, a, now, timeout), |c.status|)
  {
  }

  // ---------- the theorem ----------

  lemma {:induction false} AgreesAlways(max: nat, events: seq<Event>, k: Key, beats: seq<Beat>)
    requires 1 <= max && Arrived(beats) <= |events| && NeverFull(max, events, beats)
    ensures Agrees(events, After(max, events, beats), k, LocalRun(events, Trace(events, k, beats)), Arrived(beats))
    decreases |beats|
  {
    if |beats| > 0 {
      var front := beats[..|beats| - 1];
      var c, t := After(max, events, front), Trace(events, k, front);
      var a := LocalRun(events, t);
      AgreesAlways(max, events, k, front);
      InvIsWellFormed(max, events, c);
      match beats[|beats| - 1]
      case Arrival =>
        var i := Arrived(front);
        AgreesStep(max, events, c, k, a, i);
        if HasKey(events[i], k) { HearsOne(events, t, Own(i)); }
      case Timeout(now, timeout) =>
        AgreesFlushed(max, events, c, k, a, now, timeout, After(max, events, beats));
        HearsOne(events, t, Flushed(now, timeout));
    }
  }

  lemma HearsOne(events: seq<Event>, t: seq<Heard>, h: Heard)
    requires Within(t, |events|) && (h.Own? ==> h.i < |events|)
    ensures Within(t + [h], |events|) && LocalRun(events, t + [h]) == LocalNext(events, LocalRun(events, t), h)
  {
    assert (t + [h])[..|t|] == t;
  }

  lemma AgreesStep(max: nat, events: seq<Event>, c: Corr, k: Key, a: Local, i: nat)
    requires Inv(max, events, c) && WellFormed(c) && i == |c.status| < |events| && Room(max, c)
    requires Agrees(events, c, k, a, i)
    ensures
      var c' := OnAppend(max, events, c, i);
      && |c'.pair| == |c'.status| == i + 1
      && Agrees(events, c', k, if HasKey(events[i], k) then LocalStep(events, a, i) else a, i + 1)
  {
    if events[i].kind == Request || events[i].kind == Response {
      var own := KeyOf(events[i]);
      var s := SlotOf(c, own);
      AppendMoves(max, events, c, i, s);
      AgreesMoved(events, c, OnAppend(max, events, c, i), own, k, a, i, s);
    }
  }

  lemma AgreesMoved(events: seq<Event>, c: Corr, c': Corr, own: Key, k: Key, a: Local, i: nat, s: Slot)
    requires i < |events| && HasKey(events[i], own) && s == SlotOf(c, own)
    requires s != Vacant ==> s.i < i && i <= |c.pair| && HasKey(events[s.i], own) && c.pair[s.i] == -1
    requires Moves(c, c', own, i, MoveOf(events, s, i)) && Agrees(events, c, k, a, i)
    ensures Agrees(events, c', k, if HasKey(events[i], k) then LocalStep(events, a, i) else a, i + 1)
  {
    if own == k {
      LocalMoves(events, a, i);
      AgreesOwn(events, c, c', k, a, LocalStep(events, a, i), i, MoveOf(events, s, i));
    } else {
      AgreesOther(events, c, c', own, k, a, i, MoveOf(events, s, i));
    }
  }

  lemma AgreesOther(events: seq<Event>, c: Corr, c': Corr, own: Key, k: Key, a: Local, i: nat, m: Move)
    requires i < |events| && Moves(c, c', own, i, m) && own != k && HasKey(events[i], own)
    requires m.waiter.Some? ==> HasKey(events[m.waiter.value], own)
    requires Agrees(events, c, k, a, i)
    ensures Agrees(events, c', k, a, i + 1)
  {
  }

  lemma AgreesOwn(events: seq<Event>, c: Corr, c': Corr, k: Key, a: Local, a': Local, i: nat, m: Move)
    requires i < |events| && Moves(c, c', k, i, m) && HasKey(events[i], k)
    requires m.waiter.Some? ==> HasKey(events[m.waiter.value], k) && c.pair[m.waiter.value] == -1
    requires Agrees(events, c, k, a, i) && (m.meets ==> m.waiter.Some?)
    requires a'.slot == m.slot
    requires a'.outcome == (if m.waiter.Some? then a.outcome[m.waiter.value := m.theirs] else a.outcome)[i := m.mine]
    requires a'.partner == (if m.meets then a.partner[i := m.waiter.value][m.waiter.value := i] else a.partner)
    ensures Agrees(events, c', k, a', i + 1)
  {
  }

  /** Who waits in the slot of a key has that key. */
  lemma OwnerOfSlot(max: nat, events: seq<Event>, c: Corr, k: Key)
    requires Inv(max, events, c)
    ensures var s := SlotOf(c, k); s != Vacant ==> s.i < |c.status| && HasKey(events[s.i], k) && c.pair[s.i] == -1
  {
  }

  /** The theorem: an event's status and partner are those its key's automaton computes. */
  lemma Locality(max: nat, events: seq<Event>, beats: seq<Beat>, i: nat)
    requires 1 <= max && Arrived(beats) == |events| && i < |events| && NeverFull(max, events, beats)
    requires events[i].kind == Request || events[i].kind == Response
    ensures
      var c := After(max, events, beats);
      var a := LocalRun(events, Trace(events, KeyOf(events[i]), beats));
      && i in a.outcome && StatusOf(c, i) == a.outcome[i]
      && PairOf(c, i) == (if i in a.partner then Some(a.partner[i]) else None)
  {
    AgreesAlways(max, events, KeyOf(events[i]), beats);
  }
}
