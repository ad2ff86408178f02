/** The row side of the application state: store, correlator and rows behind one listener. */
module AppState {
  import opened Collections
  import opened Events
  import opened CorrelatorSpec
  import opened Frames
  import Spec = AppSpec
  import Laws = CorrelatorLaws
  import Store = EventStore
  import C = Correlator

  class AppState {
    const store: Store.EventStore
    const correlator: C.Correlator
    var rows: seq<Row>
    var lastSeenServerSeq: Option<int>

    ghost function State(): Spec.App
      reads this, store, correlator
    {
      Spec.App(store.events, correlator.State(), rows, lastSeenServerSeq)
    }

    ghost predicate Valid()
      reads this, store, correlator
    {
      && correlator.store == store && store.Valid() && 1 <= correlator.maxPending
      && Spec.Inv(correlator.maxPending, State())
    }

    constructor (maxPending: nat)
      requires 1 <= maxPending
      ensures Valid() && State() == Spec.BLANK && correlator.maxPending == maxPending && fresh(store) && fresh(correlator)
    {
      var s := new Store.EventStore();
      store := s;
      correlator := new C.Correlator(s, maxPending);
      rows, lastSeenServerSeq := [], None;
    }

    method BuildRow(i: nat) returns (row: Row)
      requires i < |store.events|
      modifies this`lastSeenServerSeq
      ensures row == Spec.BuildRow(store.events[i], i, correlator.State(), old(lastSeenServerSeq))
      ensures lastSeenServerSeq == Spec.SeenAfter(old(lastSeenServerSeq), store.events[i].serverSeq)
    {
      var ev := store.events[i];
      var status := correlator.StatusOf(i);
      var latency := correlator.LatencyOf(i);
      var pairIdx := correlator.PairOf(i);
      var previous := lastSeenServerSeq;
      var gapBefore := ev.serverSeq.Some? && previous.Some? && ev.serverSeq.value > previous.value + 1;
      if ev.serverSeq.Some? && (previous.None? || ev.serverSeq.value > previous.value) {
        lastSeenServerSeq := ev.serverSeq;
      }
      row := Row(i, ev, ev.serverSeq, previous, gapBefore, status, latency, BandFor(latency), pairIdx);
    }

    method BuildPatchUpdates(indexes: seq<nat>) returns (updates: seq<Update>)
      modifies this`rows
      ensures rows == Spec.PatchRows(correlator.State(), old(rows), indexes)
      ensures updates == Spec.Updates(correlator.State(), old(rows), indexes)
    {
      updates := [];
      var n := 0;
      assert indexes[0..] == indexes;
      while n < |indexes|
        invariant n <= |indexes|
        invariant Spec.PatchRows(correlator.State(), rows, indexes[n..]) == Spec.PatchRows(correlator.State(), old(rows), indexes)
        invariant updates + Spec.Updates(correlator.State(), rows, indexes[n..]) == Spec.Updates(correlator.State(), old(rows), indexes)
      {
        assert indexes[n..][1..] == indexes[n + 1..];
        var more := PatchOneRow(indexes[n]);
        updates := updates + more;
        n := n + 1;
      }
    }

    method PatchOneRow(i: nat) returns (more: seq<Update>)
      modifies this`rows
      ensures
        var c := correlator.State();
        if i >= |old(rows)| || Spec.UpToDate(c, old(rows)[i], i) then rows == old(rows) && |more| == 0
        else rows == old(rows)[i := Spec.Refresh(c, old(rows)[i], i)]
             && more == [Update(i, StatusOf(c, i), LatencyOf(c, i), BandFor(LatencyOf(c, i)), PairOf(c, i))]
    {
      more := [];
      if i >= |rows| {
        return;
      }
      var prev := rows[i];
      var status := correlator.StatusOf(i);
      var latencyMs := correlator.LatencyOf(i);
      var pairIdx := correlator.PairOf(i);
      if prev.status == status && prev.latencyMs == latencyMs && prev.pairIdx == pairIdx {
        return;
      }
      var latencyBand := BandFor(latencyMs);
      rows := rows[i := prev.(status := status, latencyMs := latencyMs, latencyBand := latencyBand, pairIdx := pairIdx)];
      more := [Update(i, status, latencyMs, latencyBand, pairIdx)];
    }

    /** Appends to the store; its subscribers run at once, the correlator before the rows. What is emitted
        to the listeners is the result. */
    method Append(ev: Event) returns (emitted: seq<Payload>)
      requires Valid()
      modifies this, store, correlator
      ensures Valid()
      ensures Spec.Emission(State(), emitted) == Spec.OnEvent(correlator.maxPending, old(State()), ev)
      ensures ApplyAll(old(rows), emitted) == rows
    {
      ghost var before := State();
      Laws.InvIsWellFormed(correlator.maxPending, store.events, correlator.State());
      var i := store.Append(ev);
      correlator.OnAppend(i);
      emitted := OnStoreAppend(i);
      Spec.OnEventKeeps(correlator.maxPending, before, ev);
      Spec.OnEventMirrors(correlator.maxPending, before, ev);
    }

    /** The store subscriber: the new row, then the older rows the correlator changed. */
    method OnStoreAppend(i: nat) returns (emitted: seq<Payload>)
      requires i == |rows| && i + 1 == |store.events|
      modifies this, correlator
      ensures
        var c := old(correlator.State());
        var row := Spec.BuildRow(store.events[i], i, c, old(lastSeenServerSeq));
        var all := old(rows) + [row];
        var older := Spec.Below(c.changed, i);
        && correlator.State() == Drain(c)
        && rows == Spec.PatchRows(c, all, older)
        && lastSeenServerSeq == Spec.SeenAfter(old(lastSeenServerSeq), store.events[i].serverSeq)
        && emitted == [Payload.Append([row], i)] + Spec.PatchPayload(Spec.Updates(c, all, older))
    {
      ghost var c := correlator.State();
      var row := BuildRow(i);
      rows := rows + [row];
      var changed := correlator.DrainChangedIndexes();
      var older := KeepBelow(changed, i);
      Spec.DrainIsInvisible(c, rows, older);
      var updates := BuildPatchUpdates(older);
      emitted := [Payload.Append([row], i)];
      if |updates| > 0 {
        emitted := emitted + [Patch(updates)];
      }
    }

    static method KeepBelow(indexes: seq<nat>, bound: nat) returns (r: seq<nat>)
      ensures r == Spec.Below(indexes, bound)
    {
      r := [];
      var n := 0;
      assert indexes[0..] == indexes;
      while n < |indexes|
        invariant n <= |indexes|
        invariant r + Spec.Below(indexes[n..], bound) == Spec.Below(indexes, bound)
      {
        assert indexes[n..][1..] == indexes[n + 1..];
        if indexes[n] < bound {
          r := r + [indexes[n]];
        }
        n := n + 1;
      }
    }

    /** The timeout ticker. */
    method RunFlush(nowMs: int, unmatchedTimeoutMs: int) returns (emitted: seq<Payload>)
      requires Valid()
      modifies this, store, correlator
      ensures Valid()
      ensures Spec.Emission(State(), emitted) == Spec.RunFlush(correlator.maxPending, old(State()), nowMs, unmatchedTimeoutMs)
      ensures ApplyAll(old(rows), emitted) == rows
    {
      ghost var before := State();
      Laws.InvIsWellFormed(correlator.maxPending, store.events, correlator.State());
      correlator.Flush(nowMs, unmatchedTimeoutMs);
      emitted := PatchChanged();
      Spec.RunFlushKeeps(correlator.maxPending, before, nowMs, unmatchedTimeoutMs);
    }

    /** Patches the rows the correlator has changed. */
    method PatchChanged() returns (emitted: seq<Payload>)
      modifies this`rows, correlator
      ensures
        var c := old(correlator.State());
        && correlator.State() == Drain(c)
        && rows == Spec.PatchRows(c, old(rows), c.changed)
        && emitted == Spec.PatchPayload(Spec.Updates(c, old(rows), c.changed))
    {
      ghost var c := correlator.State();
      var changed := correlator.DrainChangedIndexes();
      Spec.DrainIsInvisible(c, rows, changed);
      var updates := BuildPatchUpdates(changed);
      emitted := if |updates| > 0 then [Patch(updates)] else [];
    }

    /** Rotation clears every server-side index before the replacement file is read. */
    method OnReset(newSize: nat) returns (emitted: seq<Payload>)
      requires Valid()
      modifies this, store, correlator
      ensures Valid()
      ensures Spec.Emission(State(), emitted) == Spec.OnReset(newSize)
      ensures ApplyAll(old(rows), emitted) == rows
    {
      ghost var before := State();
      store.Reset();
      correlator.Reset();
      rows := [];
      lastSeenServerSeq := None;
      emitted := [LoadProgress(NotLoading, |rows|), Rotation(newSize)];
      Spec.OnResetKeeps(correlator.maxPending, before, newSize);
    }
  }
}
