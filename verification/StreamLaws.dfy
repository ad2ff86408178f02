/** What a client reconstructs, and what the counters count. */
module StreamLaws {
  import opened Collections
  import opened Frames
  import opened StreamSpec

  // ---------- accounting ----------

  function InFlight(s: Stream): seq<Frame> {
    match s.writing
    case Queued(f) => [f]
    case _ => []
  }

  /** The counters are the sums over the frame in flight and the queue; nothing exceeds the limits; every
      frame is measured by the payload it carries; after the end, only the frame in flight counts. */
  ghost predicate Accounted(size: Size, limits: Limits, s: Stream) {
    var all := InFlight(s) + s.queue;
    && s.pendingBytes == ByteSum(all) <= limits.maxBytes
    && s.pendingFrames == |all| <= limits.maxFrames
    && s.pendingRows == RowSum(all) <= limits.maxRows
    && (forall f :: f in all ==> f.byteLength == size(f.payload) && f.rowCount == RowCount(f.payload))
    && (s.endReason.Some? ==> s.queue == [] && !s.attached)
    && (s.endReason.None? ==> s.attached)
    && (s.phase.Ending? || s.phase.Closed? ==> s.endReason.Some?)
  }

  lemma {:induction false} SumsConcat(a: seq<Frame>, b: seq<Frame>)
    ensures ByteSum(a + b) == ByteSum(a) + ByteSum(b)
    ensures RowSum(a + b) == RowSum(a) + RowSum(b)
    decreases |a|
  {
    if |a| == 0 {
      assert a + b == b;
    } else {
      assert (a + b)[1..] == a[1..] + b;
      SumsConcat(a[1..], b);
    }
  }

  lemma SumsOne(f: Frame)
    ensures ByteSum([f]) == f.byteLength && RowSum([f]) == f.rowCount
  {
    assert [f][1..] == [];
  }

  lemma RequestEndAccounts(size: Size, limits: Limits, s: Stream, reason: EndReason)
    requires Accounted(size, limits, s)
    ensures Accounted(size, limits, RequestEnd(s, reason))
  {
    SumsConcat(InFlight(s), s.queue);
    assert InFlight(s) + [] == InFlight(s);
  }

  lemma PushFrameAccounts(size: Size, limits: Limits, s: Stream, p: Payload, coalesced: bool)
    requires Accounted(size, limits, s) && s.endReason.None?
    ensures Accounted(size, limits, PushFrame(limits, s, MakeFrame(size, p, coalesced)))
  {
    var f := MakeFrame(size, p, coalesced);
    var all := InFlight(s) + s.queue;
    assert InFlight(s) + (s.queue + [f]) == all + [f];
    SumsConcat(all, [f]);
    SumsOne(f);
    RequestEndAccounts(size, limits, s, Overflow);
  }

  lemma ReplaceLastAccounts(size: Size, limits: Limits, s: Stream, p: Payload)
    requires Accounted(size, limits, s) && s.endReason.None? && |s.queue| > 0
    ensures Accounted(size, limits, ReplaceLast(limits, s, MakeFrame(size, p, true)))
  {
    var f := MakeFrame(size, p, true);
    var front, last := s.queue[..|s.queue| - 1], s.queue[|s.queue| - 1];
    assert s.queue == front + [last] && s.queue[|s.queue| - 1 := f] == front + [f];
    if ReplaceLast(limits, s, f).endReason.None? {
      SumsReplaced(InFlight(s), front, last, f);
      assert forall g :: g in InFlight(s) + (front + [f]) ==> g == f || g in InFlight(s) + s.queue;
    } else {
      RequestEndAccounts(size, limits, s, Overflow);
    }
  }

  /** Replacing the last frame changes the sums by the difference of the two. */
  lemma SumsReplaced(flight: seq<Frame>, front: seq<Frame>, last: Frame, f: Frame)
    ensures ByteSum(flight + (front + [f])) == ByteSum(flight + (front + [last])) - last.byteLength + f.byteLength
    ensures RowSum(flight + (front + [f])) == RowSum(flight + (front + [last])) - last.rowCount + f.rowCount
  {
    var before := flight + front;
    assert flight + (front + [last]) == before + [last] && flight + (front + [f]) == before + [f];
    SumsConcat(before, [last]);
    SumsConcat(before, [f]);
    SumsOne(last);
    SumsOne(f);
  }

  lemma EnqueueAccounts(size: Size, limits: Limits, s: Stream, p: Payload)
    requires Accounted(size, limits, s)
    ensures Accounted(size, limits, Enqueue(size, limits, s, p))
  {
    if s.endReason.None? {
      match Merge(s.queue, p)
      case Some(merged) => ReplaceLastAccounts(size, limits, s, merged);
      case None => PushFrameAccounts(size, limits, s, p, false);
    }
  }

  lemma {:induction false} HearAccounts(size: Size, limits: Limits, s: Stream, payloads: seq<Payload>)
    requires Accounted(size, limits, s)
    ensures Accounted(size, limits, Hear(size, limits, s, payloads))
    decreases |payloads|
  {
    if |payloads| > 0 {
      EnqueueAccounts(size, limits, s, payloads[0]);
      HearAccounts(size, limits, if s.attached then Enqueue(size, limits, s, payloads[0]) else s, payloads[1..]);
    }
  }

  lemma CompleteAccounts(size: Size, limits: Limits, s: Stream)
    requires Accounted(size, limits, s)
    ensures Accounted(size, limits, Complete(s))
  {
    SumsConcat(InFlight(s), s.queue);
    if s.writing.Queued? { SumsOne(s.writing.frame); }
    assert [] + s.queue == s.queue;
  }

  lemma ShiftAccounts(size: Size, limits: Limits, s: Stream)
    requires Accounted(size, limits, s) && s.writing == Nothing
    ensures Accounted(size, limits, Shift(s))
  {
    if |s.queue| > 0 {
      assert [s.queue[0]] + s.queue[1..] == [] + s.queue;
    }
  }

  /** The books do not depend on the phase, the wire or what is written directly. */
  lemma SameBooks(size: Size, limits: Limits, s: Stream, s': Stream)
    requires Accounted(size, limits, s)
    requires s'.queue == s.queue && InFlight(s') == InFlight(s) && s'.endReason == s.endReason && s'.attached == s.attached
    requires s'.pendingBytes == s.pendingBytes && s'.pendingFrames == s.pendingFrames && s'.pendingRows == s.pendingRows
    requires s'.phase.Ending? || s'.phase.Closed? ==> s.endReason.Some?
    ensures Accounted(size, limits, s')
  {
  }

  lemma AdvanceEndingAccounts(size: Size, limits: Limits, s: Stream)
    requires Accounted(size, limits, s) && s.writing == Nothing
    ensures Accounted(size, limits, AdvanceEnding(s))
  {
    SameBooks(size, limits, s, AdvanceEnding(s));
  }

  lemma FarewellAccounts(size: Size, limits: Limits, s: Stream)
    requires Accounted(size, limits, s) && s.writing == Nothing
    ensures Accounted(size, limits, Farewell(s))
  {
    if s.endReason.Some? {
      var s' := s.(phase := Ending(FarewellScript(s.endReason.value)));
      SameBooks(size, limits, s, s');
      AdvanceEndingAccounts(size, limits, s');
    }
  }

  lemma AdvanceLiveAccounts(size: Size, limits: Limits, s: Stream)
    requires Accounted(size, limits, s) && s.writing == Nothing
    ensures Accounted(size, limits, AdvanceLive(s))
  {
    FarewellAccounts(size, limits, s);
    ShiftAccounts(size, limits, s);
    if s.endReason.None? && |s.queue| == 0 { SameBooks(size, limits, s, AdvanceLive(s)); }
  }

  lemma AdvanceAccounts(size: Size, limits: Limits, s: Stream)
    requires Accounted(size, limits, s) && s.writing == Nothing
    ensures Accounted(size, limits, Advance(s))
  {
    FarewellAccounts(size, limits, s);
    if s.phase.Snapshot? && s.endReason.None? && |s.phase.rest| == 0 && |s.queue| == 0 {
      SameBooks(size, limits, s, s.(phase := Live));
      AdvanceLiveAccounts(size, limits, s.(phase := Live));
    } else if s.phase.Snapshot? {
      if Advance(s) != Farewell(s) { SameBooks(size, limits, s, Advance(s)); }
    } else if s.phase.DrainingBacklog? {
      ShiftAccounts(size, limits, s);
      if s.endReason.None? && |s.queue| == 0 { SameBooks(size, limits, s, Advance(s)); }
    } else if s.phase.Live? {
      AdvanceLiveAccounts(size, limits, s);
    } else {
      AdvanceEndingAccounts(size, limits, s);
    }
  }

  /** Every step of the stream keeps the books. */
  lemma NextAccounts(size: Size, limits: Limits, s: Stream, step: Step)
    requires Accounted(size, limits, s)
    ensures Accounted(size, limits, Next(s, step))
  {
    match step
    case Wrote =>
      CompleteAccounts(size, limits, s);
      if s.writing != Nothing { AdvanceAccounts(size, limits, Complete(s)); }
    case Woke =>
      if s.writing == Nothing { AdvanceLiveAccounts(size, limits, s); }
    case Heartbeat =>
    case End(reason) =>
      RequestEndAccounts(size, limits, s, reason);
    case Disconnect =>
      RequestEndAccounts(size, limits, s.(aborted := true), Abort);
  }

  // ---------- what the client will see ----------

  function Payloads(queue: seq<Frame>): seq<Payload> {
    if |queue| == 0 then [] else [queue[0].payload] + Payloads(queue[1..])
  }

  function Awaited(s: Stream): seq<Payload> {
    match s.writing
    case Nothing => []
    case Direct(p) => [p]
    case Queued(f) => [f.payload]
  }

  function Scripted(s: Stream): seq<Payload> {
    if s.phase.Snapshot? then s.phase.rest else []
  }

  /** Everything the client has got or is going to get if nothing more is emitted: what was delivered, the
      write in flight, the rest of the snapshot, the queue. */
  function Future(s: Stream): seq<Payload> {
    s.delivered + (Awaited(s) + (Scripted(s) + Payloads(s.queue)))
  }

  function ClientView(s: Stream): View {
    ApplyAll([], Future(s))
  }

  lemma {:induction false} PayloadsConcat(a: seq<Frame>, b: seq<Frame>)
    ensures Payloads(a + b) == Payloads(a) + Payloads(b)
    decreases |a|
  {
    if |a| == 0 {
      assert a + b == b;
    } else {
      assert (a + b)[1..] == a[1..] + b;
      PayloadsConcat(a[1..], b);
    }
  }

  lemma PayloadsOne(f: Frame)
    ensures Payloads([f]) == [f.payload]
  {
    assert [f][1..] == [];
  }

  /** Merged payloads mean what the two meant one after the other. */
  lemma CoalesceMeans(view: View, previous: Payload, next: Payload)
    requires Coalesce(previous, next).Some?
    ensures Apply(view, Coalesce(previous, next).value) == Apply(Apply(view, previous), next)
    ensures RowCount(Coalesce(previous, next).value) == RowCount(previous) + RowCount(next)
  {
    match (previous, next)
    case (Append(rows, from), Append(more, at)) => PlaceConcat(view, from, rows, more);
    case (Patch(updates), Patch(more)) => PatchAllConcat(view, updates, more);
    case _ =>
  }

  /** The part of the future that comes before the queue. */
  function Ahead(s: Stream): seq<Payload> {
    s.delivered + (Awaited(s) + Scripted(s))
  }

  lemma FutureIsAhead(s: Stream)
    ensures Future(s) == Ahead(s) + Payloads(s.queue)
  {
  }

  /** As long as the stream is not ended, an emitted payload is as good as applied, whether it is queued
      on its own or merged into the last frame. */
  lemma EnqueueMeans(size: Size, limits: Limits, s: Stream, p: Payload)
    requires Enqueue(size, limits, s, p).endReason.None?
    ensures ClientView(Enqueue(size, limits, s, p)) == Apply(ClientView(s), p)
    ensures Enqueue(size, limits, s, p).attached == s.attached
  {
    match Merge(s.queue, p)
    case Some(merged) => ReplaceLastMeans(limits, s, MakeFrame(size, merged, true), p);
    case None => PushFrameMeans(limits, s, MakeFrame(size, p, false));
  }

  lemma PushFrameMeans(limits: Limits, s: Stream, f: Frame)
    requires PushFrame(limits, s, f).endReason.None?
    ensures ClientView(PushFrame(limits, s, f)) == Apply(ClientView(s), f.payload)
  {
    FutureIsAhead(s);
    FutureIsAhead(PushFrame(limits, s, f));
    PushMeans(Ahead(s), s.queue, f);
  }

  lemma ReplaceLastMeans(limits: Limits, s: Stream, f: Frame, p: Payload)
    requires |s.queue| > 0 && Coalesce(s.queue[|s.queue| - 1].payload, p) == Some(f.payload)
    requires ReplaceLast(limits, s, f).endReason.None?
    ensures ClientView(ReplaceLast(limits, s, f)) == Apply(ClientView(s), p)
  {
    var front, last := s.queue[..|s.queue| - 1], s.queue[|s.queue| - 1];
    FutureIsAhead(s);
    FutureIsAhead(ReplaceLast(limits, s, f));
    LastReplaced(limits, s, f);
    MergeMeans(Ahead(s), front, last, f, p);
  }

  lemma LastReplaced(limits: Limits, s: Stream, f: Frame)
    requires |s.queue| > 0 && ReplaceLast(limits, s, f).endReason.None?
    ensures
      var front, t := s.queue[..|s.queue| - 1], ReplaceLast(limits, s, f);
      s.queue == front + [s.queue[|s.queue| - 1]] && t.queue == front + [f] && Ahead(t) == Ahead(s)
  {
  }

  lemma PushMeans(ahead: seq<Payload>, queue: seq<Frame>, f: Frame)
    ensures ApplyAll([], ahead + Payloads(queue + [f])) == Apply(ApplyAll([], ahead + Payloads(queue)), f.payload)
  {
    PayloadsConcat(queue, [f]);
    PayloadsOne(f);
    assert ahead + (Payloads(queue) + [f.payload]) == (ahead + Payloads(queue)) + [f.payload];
    ApplyAllConcat([], ahead + Payloads(queue), [f.payload]);
    ApplyOne(ApplyAll([], ahead + Payloads(queue)), f.payload);
  }

  lemma MergeMeans(ahead: seq<Payload>, front: seq<Frame>, last: Frame, merged: Frame, p: Payload)
    requires Coalesce(last.payload, p) == Some(merged.payload)
    ensures ApplyAll([], ahead + Payloads(front + [merged])) == Apply(ApplyAll([], ahead + Payloads(front + [last])), p)
  {
    PushMeans(ahead, front, last);
    PushMeans(ahead, front, merged);
    CoalesceMeans(ApplyAll([], ahead + Payloads(front)), last.payload, p);
  }

  lemma {:induction false} HearMeans(size: Size, limits: Limits, s: Stream, payloads: seq<Payload>)
    requires s.endReason.None? ==> s.attached
    requires s.endReason.Some? ==> !s.attached
    ensures s.endReason.Some? ==> Hear(size, limits, s, payloads).endReason.Some?
    ensures Hear(size, limits, s, payloads).endReason.None? ==>
      ClientView(Hear(size, limits, s, payloads)) == ApplyAll(ClientView(s), payloads)
    decreases |payloads|
  {
    if |payloads| > 0 {
      var s1 := if s.attached then Enqueue(size, limits, s, payloads[0]) else s;
      HearMeans(size, limits, s1, payloads[1..]);
      if s1.endReason.None? { EnqueueMeans(size, limits, s, payloads[0]); }
    }
  }

  // ---------- the writer changes nothing ----------

  lemma CompleteKeepsFuture(s: Stream)
    ensures Future(Complete(s)) == Future(s)
  {
    if s.writing != Nothing { MovesToDelivered(s.delivered, Awaited(s), Scripted(s) + Payloads(s.queue)); }
  }

  lemma MovesToDelivered(delivered: seq<Payload>, awaited: seq<Payload>, rest: seq<Payload>)
    ensures (delivered + awaited) + ([] + rest) == delivered + (awaited + rest)
  {
  }

  /** Payloads that carry no rows can be slipped in anywhere. */
  lemma NeutralInserted(before: seq<Payload>, p: Payload, after: seq<Payload>)
    requires p.StreamBacklog? || p.Ping?
    ensures ApplyAll([], before + ([p] + after)) == ApplyAll([], before + after)
  {
    ApplyAllConcat([], before, [p] + after);
    ApplyAllConcat([], before, after);
    ApplyAllConcat(ApplyAll([], before), [p], after);
    ApplyOne(ApplyAll([], before), p);
  }

  lemma ShiftKeepsFuture(s: Stream)
    requires s.writing == Nothing && !s.phase.Snapshot?
    ensures Future(Shift(s)) == Future(s)
  {
  }

  lemma AdvanceLiveMeans(s: Stream)
    requires s.writing == Nothing && s.phase.Live? && s.endReason.None?
    ensures ClientView(AdvanceLive(s)) == ClientView(s)
  {
    ShiftKeepsFuture(s);
    if |s.queue| == 0 && s.heartbeatDue {
      NeutralInserted(s.delivered, Ping, []);
      assert Future(AdvanceLive(s)) == s.delivered + ([Ping] + []);
      assert Future(s) == s.delivered + [];
    }
  }

  lemma AdvanceMeans(s: Stream)
    requires s.writing == Nothing && s.endReason.None? && !s.phase.Ending?
    ensures ClientView(Advance(s)) == ClientView(s)
  {
    match s.phase
    case Snapshot(rest) => AdvanceSnapshotMeans(s);
    case DrainingBacklog =>
      ShiftKeepsFuture(s);
      if |s.queue| == 0 { BacklogMeans(s, StreamBacklog(0, 0)); }
    case Live => AdvanceLiveMeans(s);
    case Closed =>
  }

  lemma AdvanceSnapshotMeans(s: Stream)
    requires s.writing == Nothing && s.endReason.None? && s.phase.Snapshot?
    ensures ClientView(Advance(s)) == ClientView(s)
  {
    if |s.phase.rest| > 0 {
      ScriptMovesOn(s);
    } else if |s.queue| > 0 {
      BacklogMeans(s, StreamBacklog(|s.queue|, RowSum(s.queue)));
    } else {
      GoLive(s);
    }
  }

  /** The next frame of the snapshot is written. */
  lemma ScriptMovesOn(s: Stream)
    requires s.writing == Nothing && s.endReason.None? && s.phase.Snapshot? && |s.phase.rest| > 0
    ensures Future(Advance(s)) == Future(s)
  {
    NextOfScript(s.phase.rest, Payloads(s.queue));
  }

  lemma NextOfScript(rest: seq<Payload>, queued: seq<Payload>)
    requires |rest| > 0
    ensures [rest[0]] + (rest[1..] + queued) == [] + (rest + queued)
  {
    assert rest == [rest[0]] + rest[1..];
  }

  lemma GoLive(s: Stream)
    requires s.writing == Nothing && s.endReason.None? && s.phase.Snapshot? && s.phase.rest == [] && s.queue == []
    ensures ClientView(Advance(s)) == ClientView(s)
  {
    var live := s.(phase := Live);
    assert Future(live) == Future(s);
    AdvanceLiveMeans(live);
  }

  lemma BacklogMeans(s: Stream, p: Payload)
    requires s.writing == Nothing && Scripted(s) == [] && p.StreamBacklog?
    ensures ClientView(s.(phase := DrainingBacklog, writing := Direct(p))) == ClientView(s)
    ensures ClientView(s.(phase := Live, writing := Direct(p))) == ClientView(s)
  {
    NeutralInserted(s.delivered, p, Payloads(s.queue));
    assert [] + Payloads(s.queue) == Payloads(s.queue);
  }

  /** No step of the writer, and no timer, changes what the client will see. */
  lemma NextMeans(size: Size, limits: Limits, s: Stream, step: Step)
    requires Accounted(size, limits, s)
    requires Next(s, step).endReason.None?
    ensures s.endReason.None? && ClientView(Next(s, step)) == ClientView(s)
  {
    match step
    case Wrote =>
      if s.writing != Nothing {
        CompleteKeepsFuture(s);
        AdvanceEnds(Complete(s));
        AdvanceMeans(Complete(s));
      }
    case Woke =>
      if s.writing == Nothing && s.phase == Live && s.endReason.None? { AdvanceLiveMeans(s); }
    case Heartbeat =>
    case End(reason) =>
    case Disconnect =>
  }

  lemma AdvanceEnds(s: Stream)
    ensures Advance(s).endReason == s.endReason
  {
  }

  // ---------- the snapshot ----------

  lemma {:induction false} ChunksMean(view: View, rows: seq<Row>, at: nat)
    requires at <= |rows| && view == rows[..at]
    ensures ApplyAll(view, Chunks(rows, at)) == rows
    decreases |rows| - at
  {
    if at < |rows| {
      var end := if at + SNAPSHOT_CHUNK <= |rows| then at + SNAPSHOT_CHUNK else |rows|;
      var p := SnapshotChunk(rows[at..end], at);
      ApplyAllConcat(view, [p], Chunks(rows, at + SNAPSHOT_CHUNK));
      ApplyOne(view, p);
      assert Place(view, at, rows[at..end]) == rows[..end];
      if end == |rows| {
        assert rows[..end] == rows;
        assert Chunks(rows, at + SNAPSHOT_CHUNK) == [];
      } else {
        ChunksMean(rows[..end], rows, end);
      }
    } else {
      assert rows[..at] == rows;
    }
  }

  lemma SnapshotMeans(view: View, rows: seq<Row>, progress: LoadPhase)
    ensures ApplyAll(view, SnapshotScript(rows, progress)) == rows
  {
    var tail := if progress == NotLoading then [] else [LoadProgress(progress, |rows|)];
    var a, b, c := [SnapshotBegin(|rows|)], Chunks(rows, 0), [SnapshotEnd];
    ApplyAllConcat(view, a + b + c, tail);
    ApplyAllConcat(view, a + b, c);
    ApplyAllConcat(view, a, b);
    ApplyOne(view, SnapshotBegin(|rows|));
    ChunksMean([], rows, 0);
    ApplyOne(rows, SnapshotEnd);
    if progress != NotLoading { ApplyOne(rows, LoadProgress(progress, |rows|)); }
  }

  /** A stream just opened, sticky warnings queued, will show the rows of the snapshot. */
  lemma OpenMeans(size: Size, limits: Limits, rows: seq<Row>, progress: LoadPhase, sticky: seq<Payload>)
    requires forall p :: p in sticky ==> p.WatchError?
    ensures var s := Open(size, limits, rows, progress, sticky);
      Accounted(size, limits, s) && SaysGoodbye(s) && (s.endReason.None? ==> ClientView(s) == rows)
  {
    var script := SnapshotScript(rows, progress);
    var s0 := Stream([], 0, 0, 0, None, false, true, false, Snapshot(script), Nothing, []);
    var s1 := Hear(size, limits, s0, sticky);
    HearAccounts(size, limits, s0, sticky);
    HearKeepsWriter(size, limits, s0, sticky);
    AdvanceAccounts(size, limits, s1);
    AdvanceEnds(s1);
    if s1.endReason.None? {
      HearMeans(size, limits, s0, sticky);
      AdvanceMeans(s1);
      assert Future(s0) == script;
      SnapshotMeans([], rows, progress);
      WarningsAreNeutral(rows, sticky);
    }
  }

  lemma {:induction false} HearKeepsWriter(size: Size, limits: Limits, s: Stream, payloads: seq<Payload>)
    ensures var s' := Hear(size, limits, s, payloads);
      s'.phase == s.phase && s'.writing == s.writing && s'.delivered == s.delivered
    decreases |payloads|
  {
    if |payloads| > 0 {
      HearKeepsWriter(size, limits, if s.attached then Enqueue(size, limits, s, payloads[0]) else s, payloads[1..]);
    }
  }

  lemma {:induction false} WarningsAreNeutral(view: View, payloads: seq<Payload>)
    requires forall p :: p in payloads ==> p.WatchError?
    ensures ApplyAll(view, payloads) == view
    decreases |payloads|
  {
    if |payloads| > 0 {
      assert payloads[0].WatchError?;
      WarningsAreNeutral(view, payloads[1..]);
    }
  }

  // ---------- the farewell ----------

  ghost predicate EndsWith(all: seq<Payload>, suffix: seq<Payload>) {
    |suffix| <= |all| && all[|all| - |suffix|..] == suffix
  }

  /** A stream that is ending, or closed, says exactly the farewell of its reason, last of all, unless the
      connection is gone. */
  ghost predicate SaysGoodbye(s: Stream) {
    match s.phase
    case Ending(rest) =>
      s.endReason.Some? && (s.aborted || EndsWith(s.delivered + (Awaited(s) + rest), FarewellScript(s.endReason.value)))
    case Closed =>
      s.endReason.Some? && s.writing == Nothing && (s.aborted || EndsWith(s.delivered, FarewellScript(s.endReason.value)))
    case _ => true
  }

  lemma AdvanceEndingSaysGoodbye(s: Stream)
    requires s.writing == Nothing && s.phase.Ending? && SaysGoodbye(s)
    ensures SaysGoodbye(AdvanceEnding(s))
  {
    NothingAwaited(s.delivered, s.phase.rest);
    if |s.phase.rest| > 0 { StillToSay(s.delivered, s.phase.rest); }
  }

  lemma NothingAwaited(delivered: seq<Payload>, rest: seq<Payload>)
    ensures delivered + ([] + rest) == delivered + rest && (|rest| == 0 ==> delivered + rest == delivered)
  {
  }

  lemma StillToSay(delivered: seq<Payload>, rest: seq<Payload>)
    requires |rest| > 0
    ensures delivered + ([rest[0]] + rest[1..]) == delivered + rest
  {
  }

  lemma FarewellSaysGoodbye(s: Stream)
    requires s.writing == Nothing && s.endReason.Some?
    ensures SaysGoodbye(Farewell(s))
  {
    var script := LastWords(s);
    var all := s.delivered + ([] + script);
    assert all[|all| - |script|..] == script;
    AdvanceEndingSaysGoodbye(s.(phase := Ending(script)));
  }

  lemma WroteSaysGoodbye(s: Stream)
    requires SaysGoodbye(s) && s.phase.Ending? && s.writing != Nothing
    ensures SaysGoodbye(Advance(Complete(s)))
  {
    CompletedSaysGoodbye(s, Complete(s));
    AdvanceEndingSaysGoodbye(Complete(s));
  }

  lemma CompletedSaysGoodbye(s: Stream, done: Stream)
    requires SaysGoodbye(s) && s.phase.Ending? && s.writing != Nothing && done == Complete(s)
    ensures done.writing == Nothing && done.phase == s.phase && SaysGoodbye(done)
  {
    Arrives(s.delivered, Awaited(s), s.phase.rest);
  }

  lemma Arrives(delivered: seq<Payload>, awaited: seq<Payload>, rest: seq<Payload>)
    ensures delivered + (awaited + rest) == (delivered + awaited) + ([] + rest)
  {
  }

  /** A client that overflows is told so and asked to start over; it is never cut off silently. */
  lemma NextSaysGoodbye(s: Stream, step: Step)
    requires SaysGoodbye(s)
    ensures SaysGoodbye(Next(s, step))
  {
    match step
    case Wrote =>
      if s.writing != Nothing {
        if s.phase.Ending? { WroteSaysGoodbye(s); } else { AdvanceSaysGoodbye(Complete(s)); }
      }
    case Woke =>
      if s.writing == Nothing && s.phase == Live { AdvanceLiveSaysGoodbye(s); }
    case Heartbeat =>
    case End(reason) =>
    case Disconnect =>
  }

  lemma AdvanceLiveSaysGoodbye(s: Stream)
    requires s.writing == Nothing && s.phase.Live?
    ensures SaysGoodbye(AdvanceLive(s))
  {
    if s.endReason.Some? { FarewellSaysGoodbye(s); }
  }

  lemma AdvanceSaysGoodbye(s: Stream)
    requires s.writing == Nothing && !s.phase.Ending? && SaysGoodbye(s)
    ensures SaysGoodbye(Advance(s))
  {
    if s.endReason.Some? { FarewellSaysGoodbye(s); }
    if s.phase.Live? { AdvanceLiveSaysGoodbye(s); }
    AdvanceLiveSaysGoodbye(s.(phase := Live));
  }

  lemma {:induction false} HearSaysGoodbye(size: Size, limits: Limits, s: Stream, payloads: seq<Payload>)
    requires SaysGoodbye(s)
    ensures SaysGoodbye(Hear(size, limits, s, payloads))
    decreases |payloads|
  {
    if |payloads| > 0 {
      HearSaysGoodbye(size, limits, if s.attached then Enqueue(size, limits, s, payloads[0]) else s, payloads[1..]);
    }
  }

  // ---------- who hung up ----------

  lemma {:induction false} HearKeepsAborted(size: Size, limits: Limits, s: Stream, payloads: seq<Payload>)
    ensures Hear(size, limits, s, payloads).aborted == s.aborted
    decreases |payloads|
  {
    if |payloads| > 0 {
      HearKeepsAborted(size, limits, if s.attached then Enqueue(size, limits, s, payloads[0]) else s, payloads[1..]);
    }
  }

  lemma AdvanceKeepsAborted(s: Stream)
    ensures Advance(s).aborted == s.aborted
  {
  }

  lemma NextAborts(s: Stream, step: Step)
    ensures Next(s, step).aborted == (s.aborted || step.Disconnect?)
  {
    if step.Wrote? { AdvanceKeepsAborted(Complete(s)); }
  }
}
