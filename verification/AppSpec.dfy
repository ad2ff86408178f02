/** The materialised rows: what is patched, what is emitted, and why both are always right. */
module AppSpec {
  import opened Collections
  import opened Events
  import opened CorrelatorSpec
  import opened Frames
  import Laws = CorrelatorLaws

  datatype App = App(events: seq<Event>, corr: Corr, rows: seq<Row>, lastSeen: Option<int>)

  const BLANK := App([], CLEAR, [], None)

  /** A state after a step, and the payloads emitted in order. */
  datatype Emission = Emission(app: App, payloads: seq<Payload>)

  // ---------- building rows ----------

  function SeenAfter(lastSeen: Option<int>, serverSeq: Option<int>): Option<int> {
    if serverSeq.Some? && (lastSeen.None? || serverSeq.value > lastSeen.value) then serverSeq else lastSeen
  }

  function BuildRow(ev: Event, i: nat, c: Corr, previous: Option<int>): Row {
    var latency := LatencyOf(c, i);
    Row(i, ev, ev.serverSeq, previous,
        ev.serverSeq.Some? && previous.Some? && ev.serverSeq.value > previous.value + 1,
        StatusOf(c, i), latency, BandFor(latency), PairOf(c, i))
  }

  /** The row as the correlator has it now. */
  function Refresh(c: Corr, row: Row, i: nat): Row {
    row.(status := StatusOf(c, i), latencyMs := LatencyOf(c, i), latencyBand := BandFor(LatencyOf(c, i)), pairIdx := PairOf(c, i))
  }

  predicate UpToDate(c: Corr, row: Row, i: nat) {
    row.status == StatusOf(c, i) && row.latencyMs == LatencyOf(c, i) && row.pairIdx == PairOf(c, i)
  }

  /** `buildPatchUpdates`: the rows, and the updates sent. */
  function PatchRows(c: Corr, rows: seq<Row>, indexes: seq<nat>): (r: seq<Row>)
    ensures |r| == |rows|
    decreases |indexes|
  {
    if |indexes| == 0 then rows
    else
      var i := indexes[0];
      if i >= |rows| || UpToDate(c, rows[i], i) then PatchRows(c, rows, indexes[1..])
      else PatchRows(c, rows[i := Refresh(c, rows[i], i)], indexes[1..])
  }

  function Updates(c: Corr, rows: seq<Row>, indexes: seq<nat>): seq<Update>
    decreases |indexes|
  {
    if |indexes| == 0 then []
    else
      var i := indexes[0];
      if i >= |rows| || UpToDate(c, rows[i], i) then Updates(c, rows, indexes[1..])
      else
        [Update(i, StatusOf(c, i), LatencyOf(c, i), BandFor(LatencyOf(c, i)), PairOf(c, i))]
        + Updates(c, rows[i := Refresh(c, rows[i], i)], indexes[1..])
  }

  function Below(indexes: seq<nat>, bound: nat): seq<nat> {
    if |indexes| == 0 then []
    else if indexes[0] < bound then [indexes[0]] + Below(indexes[1..], bound)
    else Below(indexes[1..], bound)
  }

  function PatchPayload(updates: seq<Update>): seq<Payload> {
    if |updates| == 0 then [] else [Patch(updates)]
  }

  // ---------- steps ----------

  /** One appended event: the correlator first, then the row, then the older rows it changed. */
  function OnEvent(max: nat, app: App, ev: Event): Emission
    requires Laws.Reachable(max, Laws.World(app.events, app.corr))
  {
    var events := app.events + [ev];
    var i := |app.events|;
    var c := OnAppend(max, events, app.corr, i);
    var row := BuildRow(ev, i, c, app.lastSeen);
    var indexes := Below(c.changed, i);
    var rows := PatchRows(c, app.rows + [row], indexes);
    Emission(App(events, Drain(c), rows, SeenAfter(app.lastSeen, ev.serverSeq)),
             [Append([row], i)] + PatchPayload(Updates(c, app.rows + [row], indexes)))
  }

  function RunFlush(max: nat, app: App, now: int, timeout: int): Emission
    requires Laws.Reachable(max, Laws.World(app.events, app.corr))
  {
    var c := Flush(app.events, app.corr, now, timeout);
    Emission(app.(corr := Drain(c), rows := PatchRows(c, app.rows, c.changed)),
             PatchPayload(Updates(c, app.rows, c.changed)))
  }

  function OnReset(newSize: nat): Emission {
    Emission(BLANK, [LoadProgress(NotLoading, 0), Rotation(newSize)])
  }

  datatype Op = Arrive(ev: Event) | Tick(now: int, timeout: int) | Rotate(newSize: nat) | Notice(payload: Payload)

  /** Notices (load progress, watch errors) carry no rows. */
  predicate IsNotice(p: Payload) {
    p.LoadProgress? || p.WatchError?
  }

  function Step(max: nat, app: App, op: Op): Emission
    requires Laws.Reachable(max, Laws.World(app.events, app.corr))
  {
    match op
    case Arrive(ev) => OnEvent(max, app, ev)
    case Tick(now, timeout) => RunFlush(max, app, now, timeout)
    case Rotate(newSize) => OnReset(newSize)
    case Notice(p) => Emission(app, if IsNotice(p) then [p] else [])
  }

  // ---------- the invariant ----------

  /** Recomputing a row's pairing fields from the correlator gives what the row already shows. */
  ghost predicate Coherent(c: Corr, rows: seq<Row>, i: nat)
    requires i < |rows|
  {
    UpToDate(c, rows[i], i) && rows[i].latencyBand == BandFor(LatencyOf(c, i))
  }

  /** The greatest server sequence number among the first `n` events. */
  function GreatestSeq(events: seq<Event>, n: nat): Option<int>
    requires n <= |events|
  {
    if n == 0 then None else SeenAfter(GreatestSeq(events, n - 1), events[n - 1].serverSeq)
  }

  /** The part of a row that is fixed when it is built. */
  ghost predicate Built(events: seq<Event>, rows: seq<Row>, i: nat)
    requires i < |rows| && i < |events|
  {
    var previous := GreatestSeq(events, i);
    var seqNo := events[i].serverSeq;
    && rows[i].idx == i && rows[i].source == events[i] && rows[i].serverSeq == seqNo && rows[i].previousServerSeq == previous
    && (rows[i].gapBefore <==> seqNo.Some? && previous.Some? && seqNo.value > previous.value + 1)
  }

  ghost predicate Inv(max: nat, app: App) {
    && Laws.Reachable(max, Laws.World(app.events, app.corr))
    && app.corr.changed == []
    && |app.rows| == |app.events|
    && app.lastSeen == GreatestSeq(app.events, |app.events|)
    && (forall i: nat :: i < |app.rows| ==> Coherent(app.corr, app.rows, i))
    && (forall i: nat :: i < |app.rows| ==> Built(app.events, app.rows, i))
  }

  // ---------- patching ----------

  lemma {:induction false} PatchRowsAt(c: Corr, rows: seq<Row>, indexes: seq<nat>, i: nat)
    requires i < |rows|
    requires rows[i].latencyBand == BandFor(rows[i].latencyMs)
    ensures PatchRows(c, rows, indexes)[i] == if i in indexes then Refresh(c, rows[i], i) else rows[i]
    decreases |indexes|
  {
    if |indexes| > 0 {
      var j := indexes[0];
      assert i in indexes <==> i == j || i in indexes[1..];
      if j >= |rows| || UpToDate(c, rows[j], j) {
        PatchRowsAt(c, rows, indexes[1..], i);
      } else {
        PatchRowsAt(c, rows[j := Refresh(c, rows[j], j)], indexes[1..], i);
      }
    }
  }

  /** The client's patch of the sent updates is the server's patch of its rows. */
  lemma {:induction false} UpdatesPatch(c: Corr, rows: seq<Row>, indexes: seq<nat>)
    ensures PatchAll(rows, Updates(c, rows, indexes)) == PatchRows(c, rows, indexes)
    decreases |indexes|
  {
    if |indexes| > 0 {
      var i := indexes[0];
      if i >= |rows| || UpToDate(c, rows[i], i) {
        UpdatesPatch(c, rows, indexes[1..]);
      } else {
        var u := Update(i, StatusOf(c, i), LatencyOf(c, i), BandFor(LatencyOf(c, i)), PairOf(c, i));
        var rest := Updates(c, rows[i := Refresh(c, rows[i], i)], indexes[1..]);
        UpdatesPatch(c, rows[i := Refresh(c, rows[i], i)], indexes[1..]);
        assert ([u] + rest)[0] == u && ([u] + rest)[1..] == rest;
        assert PatchOne(rows, u) == rows[i := Refresh(c, rows[i], i)];
      }
    }
  }

  lemma {:induction false} BelowMembers(indexes: seq<nat>, bound: nat)
    ensures forall i: nat :: i in Below(indexes, bound) <==> i in indexes && i < bound
    decreases |indexes|
  {
    if |indexes| > 0 {
      BelowMembers(indexes[1..], bound);
      assert forall i: nat :: i in indexes <==> i == indexes[0] || i in indexes[1..];
    }
  }

  /** A row that is patched when listed, and was coherent with a correlator that differs only where
      listed, is coherent. */
  lemma PatchedRowsCoherent(c0: Corr, c: Corr, rows: seq<Row>, indexes: seq<nat>, i: nat)
    requires i < |rows|
    requires rows[i].latencyBand == BandFor(rows[i].latencyMs)
    requires i in indexes || Coherent(c, rows, i)
           || (Coherent(c0, rows, i) && StatusOf(c, i) == StatusOf(c0, i) && PairOf(c, i) == PairOf(c0, i) && LatencyOf(c, i) == LatencyOf(c0, i))
    ensures Coherent(Drain(c), PatchRows(c, rows, indexes), i)
    ensures PatchRows(c, rows, indexes)[i] == Refresh(c, rows[i], i)
  {
    PatchRowsAt(c, rows, indexes, i);
  }

  lemma DrainKeeps(max: nat, events: seq<Event>, c: Corr)
    requires CorrelatorSpec.Inv(max, events, c)
    ensures CorrelatorSpec.Inv(max, events, Drain(c))
  {
    forall i: nat | i < |c.status| ensures Placed(events, Drain(c), i) {
      assert Placed(events, c, i);
    }
  }

  /** Draining the change set changes nothing a row shows. */
  lemma {:induction false} DrainIsInvisible(c: Corr, rows: seq<Row>, indexes: seq<nat>)
    ensures PatchRows(Drain(c), rows, indexes) == PatchRows(c, rows, indexes)
    ensures Updates(Drain(c), rows, indexes) == Updates(c, rows, indexes)
    decreases |indexes|
  {
    if |indexes| > 0 {
      var i := indexes[0];
      if i >= |rows| || UpToDate(c, rows[i], i) {
        DrainIsInvisible(c, rows, indexes[1..]);
      } else {
        DrainIsInvisible(c, rows[i := Refresh(c, rows[i], i)], indexes[1..]);
      }
    }
  }

  // ---------- each step ----------

  /** The client that applies what is emitted has the server's rows. */
  ghost predicate Mirrors(app: App, e: Emission) {
    ApplyAll(app.rows, e.payloads) == e.app.rows
  }

  lemma OnEventKeeps(max: nat, app: App, ev: Event)
    requires 1 <= max && Inv(max, app)
    ensures Inv(max, OnEvent(max, app, ev).app)
  {
    Laws.NextKeeps(max, Laws.World(app.events, app.corr), Laws.Arrive(ev));
    var i := |app.events|;
    var events := app.events + [ev];
    var c := OnAppend(max, events, app.corr, i);
    DrainKeeps(max, events, c);
    GreatestSeqGrows(app.events, ev, i);
    var app' := OnEvent(max, app, ev).app;
    RowsKeep(app, ev, c, BuildRow(ev, i, c, app.lastSeen), Below(c.changed, i), app');
  }

  lemma RowsKeep(app: App, ev: Event, c: Corr, row: Row, indexes: seq<nat>, app': App)
    requires |app.rows| == |app.events| && app.lastSeen == GreatestSeq(app.events, |app.events|)
    requires forall j: nat :: j < |app.rows| ==> Coherent(app.corr, app.rows, j)
    requires forall j: nat :: j < |app.rows| ==> Built(app.events, app.rows, j)
    requires |app.corr.status| == |app.rows| && ChangesListed(app.corr, c)
    requires row == BuildRow(ev, |app.rows|, c, app.lastSeen) && indexes == Below(c.changed, |app.rows|)
    requires app'.rows == PatchRows(c, app.rows + [row], indexes) && app'.corr == Drain(c) && app'.events == app.events + [ev]
    ensures forall j: nat :: j < |app'.rows| ==> Coherent(app'.corr, app'.rows, j)
    ensures forall j: nat :: j < |app'.rows| ==> Built(app'.events, app'.rows, j)
  {
    BelowMembers(c.changed, |app.rows|);
    forall j: nat | j < |app'.rows| ensures Coherent(app'.corr, app'.rows, j) && Built(app'.events, app'.rows, j) {
      if j < |app.rows| { OlderRowKeeps(app, ev, c, row, indexes, j); } else { NewRowKeeps(app, ev, c, row, indexes); }
    }
  }

  /** An older row is patched when listed, and what is not listed has not changed. */
  lemma OlderRowKeeps(app: App, ev: Event, c: Corr, row: Row, indexes: seq<nat>, j: nat)
    requires j < |app.rows| == |app.events| && Coherent(app.corr, app.rows, j) && Built(app.events, app.rows, j)
    requires j in indexes || (StatusOf(c, j) == StatusOf(app.corr, j) && PairOf(c, j) == PairOf(app.corr, j) && LatencyOf(c, j) == LatencyOf(app.corr, j))
    ensures
      var rows := PatchRows(c, app.rows + [row], indexes);
      Coherent(Drain(c), rows, j) && Built(app.events + [ev], rows, j)
  {
    GreatestSeqGrows(app.events, ev, j);
    PatchedRowsCoherent(app.corr, c, app.rows + [row], indexes, j);
  }

  lemma NewRowKeeps(app: App, ev: Event, c: Corr, row: Row, indexes: seq<nat>)
    requires |app.rows| == |app.events| && app.lastSeen == GreatestSeq(app.events, |app.events|)
    requires row == BuildRow(ev, |app.rows|, c, app.lastSeen)
    ensures
      var rows := PatchRows(c, app.rows + [row], indexes);
      Coherent(Drain(c), rows, |app.rows|) && Built(app.events + [ev], rows, |app.rows|)
  {
    var i := |app.rows|;
    GreatestSeqGrows(app.events, ev, i);
    assert Coherent(c, app.rows + [row], i);
    PatchedRowsCoherent(app.corr, c, app.rows + [row], indexes, i);
  }

  lemma {:induction false} GreatestSeqGrows(events: seq<Event>, ev: Event, n: nat)
    requires n <= |events|
    ensures GreatestSeq(events + [ev], n) == GreatestSeq(events, n)
  {
    if n > 0 { GreatestSeqGrows(events, ev, n - 1); }
  }

  lemma OnEventMirrors(max: nat, app: App, ev: Event)
    requires 1 <= max && Inv(max, app)
    ensures Mirrors(app, OnEvent(max, app, ev))
  {
    var i := |app.events|;
    var c := OnAppend(max, app.events + [ev], app.corr, i);
    RowAndPatchesApply(c, app.rows, BuildRow(ev, i, c, app.lastSeen), Below(c.changed, i), i);
  }

  lemma RowAndPatchesApply(c: Corr, rows: seq<Row>, row: Row, indexes: seq<nat>, i: nat)
    requires i == |rows|
    ensures ApplyAll(rows, [Append([row], i)] + PatchPayload(Updates(c, rows + [row], indexes))) == PatchRows(c, rows + [row], indexes)
  {
    var updates := Updates(c, rows + [row], indexes);
    ApplyAllConcat(rows, [Append([row], i)], PatchPayload(updates));
    ApplyOne(rows, Append([row], i));
    assert Place(rows, i, [row]) == rows + [row];
    PatchPayloadApplies(rows + [row], updates);
    UpdatesPatch(c, rows + [row], indexes);
  }

  lemma PatchPayloadApplies(rows: seq<Row>, updates: seq<Update>)
    ensures ApplyAll(rows, PatchPayload(updates)) == PatchAll(rows, updates)
  {
    if |updates| > 0 { ApplyOne(rows, Patch(updates)); }
  }

  lemma RunFlushKeeps(max: nat, app: App, now: int, timeout: int)
    requires 1 <= max && Inv(max, app)
    ensures Inv(max, RunFlush(max, app, now, timeout).app)
    ensures Mirrors(app, RunFlush(max, app, now, timeout))
  {
    Laws.NextKeeps(max, Laws.World(app.events, app.corr), Laws.Tick(now, timeout));
    var c := Flush(app.events, app.corr, now, timeout);
    DrainKeeps(max, app.events, c);
    var app' := RunFlush(max, app, now, timeout).app;
    forall j: nat | j < |app.rows| ensures Coherent(app'.corr, app'.rows, j) && Built(app.events, app'.rows, j) {
      assert Coherent(app.corr, app.rows, j) && Built(app.events, app.rows, j);
      PatchedRowsCoherent(app.corr, c, app.rows, c.changed, j);
    }
    PatchPayloadApplies(app.rows, Updates(c, app.rows, c.changed));
    UpdatesPatch(c, app.rows, c.changed);
  }

  lemma OnResetKeeps(max: nat, app: App, newSize: nat)
    ensures Inv(max, OnReset(newSize).app) && Mirrors(app, OnReset(newSize))
  {
    ApplyAllConcat(app.rows, [LoadProgress(NotLoading, 0)], [Rotation(newSize)]);
    ApplyOne(app.rows, LoadProgress(NotLoading, 0));
    ApplyOne(app.rows, Rotation(newSize));
    assert OnReset(newSize).payloads == [LoadProgress(NotLoading, 0)] + [Rotation(newSize)];
  }

  /** Incremental rows equal recomputation, after every step; and what a step emits turns the old rows
      into the new ones. */
  lemma StepKeeps(max: nat, app: App, op: Op)
    requires 1 <= max && Inv(max, app)
    ensures Inv(max, Step(max, app, op).app) && Mirrors(app, Step(max, app, op))
  {
    match op
    case Arrive(ev) =>
      OnEventKeeps(max, app, ev);
      OnEventMirrors(max, app, ev);
    case Tick(now, timeout) =>
      RunFlushKeeps(max, app, now, timeout);
    case Rotate(newSize) =>
      OnResetKeeps(max, app, newSize);
    case Notice(p) =>
      ApplyOne(app.rows, p);
  }

  // ---------- what a row shows of a pair ----------

  /** The band of a latency, in milliseconds. */
  predicate InBand(ms: int, band: LatencyBand) {
    match band
    case Fast => 0 <= ms < 50
    case Normal => 50 <= ms < 200
    case Slow => 200 <= ms < 1000
    case Critical => 1000 <= ms
  }

  /** The latency of a request that shows a partner is the time from it to the partner, unless that is negative;
      no other row has one; and the band goes with it. */
  ghost predicate ShowsLatency(events: seq<Event>, row: Row, i: nat)
    requires i < |events|
  {
    && row.latencyMs == (if events[i].kind == Request && row.pairIdx.Some? && 0 <= row.pairIdx.value < |events|
                            && events[i].ts <= events[row.pairIdx.value].ts
                         then Some(events[row.pairIdx.value].ts - events[i].ts) else None)
    && row.latencyBand.Some? == row.latencyMs.Some?
    && (row.latencyBand.Some? ==> InBand(row.latencyMs.value, row.latencyBand.value))
  }

  /** The partner a row shows is a row of the other kind and the same key that shows this one; both show the
      outcome of the response. */
  ghost predicate ShowsPartner(events: seq<Event>, rows: seq<Row>, i: nat)
    requires i < |events| == |rows|
  {
    var p := rows[i].pairIdx;
    p.Some? ==>
      && 0 <= p.value < |rows| && p.value != i && rows[p.value].pairIdx == Some(i)
      && {events[i].kind, events[p.value].kind} == {Request, Response} && KeyOf(events[i]) == KeyOf(events[p.value])
      && rows[i].status == rows[p.value].status
         == if (if events[i].kind == Response then events[i] else events[p.value]).failed then Error else Ok
  }

  /** In every state of the application, stated from the events alone. */
  lemma RowsShowPairs(max: nat, app: App, i: nat)
    requires Inv(max, app) && i < |app.rows|
    ensures ShowsLatency(app.events, app.rows[i], i) && ShowsPartner(app.events, app.rows, i)
  {
    assert Coherent(app.corr, app.rows, i);
    assert Placed(app.events, app.corr, i);
    LatencyShown(app.events, app.corr, app.rows[i], i);
    var p := app.corr.pair[i];
    if p != -1 { assert Coherent(app.corr, app.rows, p); }
  }

  lemma LatencyShown(events: seq<Event>, c: Corr, row: Row, i: nat)
    requires i < |c.status| == |events| && |c.pair| == |c.latency| == |c.status| && Placed(events, c, i)
    requires row.latencyMs == LatencyOf(c, i) && row.pairIdx == PairOf(c, i) && row.latencyBand == BandFor(LatencyOf(c, i))
    ensures ShowsLatency(events, row, i)
  {
  }

  // ---------- what a row shows of the sequence ----------

  /** The greatest server sequence number before event `n`; none if no event before it carries one. */
  ghost predicate IsGreatestBefore(events: seq<Event>, n: nat, greatest: Option<int>)
    requires n <= |events|
  {
    match greatest
    case None => forall j :: 0 <= j < n ==> events[j].serverSeq.None?
    case Some(v) =>
      && (exists j :: 0 <= j < n && events[j].serverSeq == Some(v))
      && forall j :: 0 <= j < n && events[j].serverSeq.Some? ==> events[j].serverSeq.value <= v
  }

  lemma {:induction false} GreatestSeqMeans(events: seq<Event>, n: nat)
    requires n <= |events|
    ensures IsGreatestBefore(events, n, GreatestSeq(events, n))
    decreases n
  {
    if n > 0 { GreatestSeqMeans(events, n - 1); }
  }

  /** A row shows its event's server sequence number, the greatest before it, and a gap exactly if it is more than one
      beyond that. */
  ghost predicate ShowsSequence(events: seq<Event>, row: Row, i: nat)
    requires i < |events|
  {
    && row.serverSeq == events[i].serverSeq && IsGreatestBefore(events, i, row.previousServerSeq)
    && (row.gapBefore <==> row.serverSeq.Some? && row.previousServerSeq.Some? && row.previousServerSeq.value + 1 < row.serverSeq.value)
  }

  lemma RowsShowSequence(max: nat, app: App, i: nat)
    requires Inv(max, app) && i < |app.rows|
    ensures ShowsSequence(app.events, app.rows[i], i)
  {
    assert Built(app.events, app.rows, i);
    GreatestSeqMeans(app.events, i);
  }

  /** Updates for listed rows that are not up to date, each row once. */
  ghost predicate AreNews(c: Corr, rows: seq<Row>, indexes: seq<nat>, us: seq<Update>) {
    && (forall k :: 0 <= k < |us| ==> us[k].idx in indexes && us[k].idx < |rows| && !UpToDate(c, rows[us[k].idx], us[k].idx))
    && forall j, k :: 0 <= j < k < |us| ==> us[j].idx != us[k].idx
  }

  /** A patch names only rows it changes, each once. */
  lemma {:induction false} UpdatesAreNews(c: Corr, rows: seq<Row>, indexes: seq<nat>)
    ensures AreNews(c, rows, indexes, Updates(c, rows, indexes))
    decreases |indexes|
  {
    if |indexes| > 0 {
      var i, rest := indexes[0], indexes[1..];
      assert forall x :: x in rest ==> x in indexes;
      if i >= |rows| || UpToDate(c, rows[i], i) {
        UpdatesAreNews(c, rows, rest);
      } else {
        var refreshed := rows[i := Refresh(c, rows[i], i)];
        UpdatesAreNews(c, refreshed, rest);
        var u := Update(i, StatusOf(c, i), LatencyOf(c, i), BandFor(LatencyOf(c, i)), PairOf(c, i));
        OneMoreIsNews(c, rows, refreshed, indexes, rest, u, Updates(c, refreshed, rest));
      }
    }
  }

  lemma OneMoreIsNews(c: Corr, rows: seq<Row>, refreshed: seq<Row>, indexes: seq<nat>, rest: seq<nat>, u: Update, us: seq<Update>)
    requires u.idx < |rows| && refreshed == rows[u.idx := Refresh(c, rows[u.idx], u.idx)] && !UpToDate(c, rows[u.idx], u.idx)
    requires u.idx in indexes && (forall x :: x in rest ==> x in indexes) && AreNews(c, refreshed, rest, us)
    ensures AreNews(c, rows, indexes, [u] + us)
  {
    var all := [u] + us;
    assert UpToDate(c, refreshed[u.idx], u.idx);
    forall k | 0 <= k < |us| ensures us[k].idx != u.idx && us[k].idx in indexes && us[k].idx < |rows| && !UpToDate(c, rows[us[k].idx], us[k].idx) {
      assert us[k].idx in rest && !UpToDate(c, refreshed[us[k].idx], us[k].idx);
    }
  }
}
