/** What reaches the client, frame by frame: the snapshot, then everything emitted, once and in order, merged in
    pairs at most; and exactly when the queue overflows. */
module StreamDelivery {
  import opened Collections
  import opened Frames
  import opened StreamSpec
  import StreamLaws

  // ---------- the snapshot ----------

  function ChunkCount(rows: nat): nat {
    (rows + SNAPSHOT_CHUNK - 1) / SNAPSHOT_CHUNK
  }

  function UpTo(rows: nat, n: nat): nat {
    if n < rows then n else rows
  }

  function ChunkOf(rows: seq<Row>, i: nat): Payload
    requires i < ChunkCount(|rows|)
  {
    var from := i * SNAPSHOT_CHUNK;
    SnapshotChunk(rows[from..UpTo(|rows|, from + SNAPSHOT_CHUNK)], from)
  }

  /** The chunks cut the rows every `SNAPSHOT_CHUNK`; only the last may be shorter, and none is empty. */
  lemma {:induction false} ChunksAre(rows: seq<Row>, n: nat, chunks: seq<Payload>)
    requires n <= ChunkCount(|rows|) && chunks == Chunks(rows, n * SNAPSHOT_CHUNK)
    ensures |chunks| == ChunkCount(|rows|) - n
    ensures forall k :: 0 <= k < |chunks| ==> chunks[k] == ChunkOf(rows, n + k)
    decreases ChunkCount(|rows|) - n
  {
    if n * SNAPSHOT_CHUNK < |rows| {
      var rest := Chunks(rows, (n + 1) * SNAPSHOT_CHUNK);
      ChunksAre(rows, n + 1, rest);
      assert chunks == [ChunkOf(rows, n)] + rest;
    }
  }

  // ---------- exactly when the queue overflows ----------

  /** The queue with the payload added, merged into the last frame if it can be. */
  function Added(size: Size, queue: seq<Frame>, p: Payload): seq<Frame> {
    match Merge(queue, p)
    case Some(merged) => queue[..|queue| - 1] + [MakeFrame(size, merged, true)]
    case None => queue + [MakeFrame(size, p, false)]
  }

  predicate Fits(limits: Limits, frames: seq<Frame>) {
    ByteSum(frames) <= limits.maxBytes && |frames| <= limits.maxFrames && RowSum(frames) <= limits.maxRows
  }

  /** A payload ends the stream by overflow exactly when the frame in flight and the queue with the payload added
      would pass a limit; if they do not, that queue is the new one. */
  lemma OverflowsIff(size: Size, limits: Limits, s: Stream, p: Payload)
    requires StreamLaws.Accounted(size, limits, s) && s.endReason.None?
    ensures
      var t := Enqueue(size, limits, s, p);
      if Fits(limits, StreamLaws.InFlight(s) + Added(size, s.queue, p)) then t.endReason.None? && t.queue == Added(size, s.queue, p)
      else t.endReason == Some(Overflow) && |t.queue| == 0
  {
    var flight := StreamLaws.InFlight(s);
    match Merge(s.queue, p)
    case Some(merged) =>
      var f := MakeFrame(size, merged, true);
      var front, last := s.queue[..|s.queue| - 1], s.queue[|s.queue| - 1];
      assert s.queue == front + [last] && s.queue[|s.queue| - 1 := f] == front + [f];
      StreamLaws.SumsReplaced(flight, front, last, f);
    case None =>
      var f := MakeFrame(size, p, false);
      assert flight + (s.queue + [f]) == (flight + s.queue) + [f];
      StreamLaws.SumsConcat(flight + s.queue, [f]);
      StreamLaws.SumsOne(f);
  }

  // ---------- merged as far as possible, and no further ----------

  /** Two payloads that would make one: rows that continue, patches, notices that replace each other. */
  predicate Mergeable(a: Payload, b: Payload) {
    || (a.Append? && b.Append? && a.from + |a.rows| == b.from)
    || (a.Patch? && b.Patch?)
    || (a.LoadProgress? && b.LoadProgress?)
    || (a.StreamBacklog? && b.StreamBacklog?)
  }

  /** Neighbours that could be one are two only because the first is a pair already. */
  ghost predicate Compact(queue: seq<Frame>) {
    forall i, j :: 0 <= i && j == i + 1 && j < |queue| && Mergeable(queue[i].payload, queue[j].payload) ==>
      queue[i].coalesced && !queue[i].payload.LoadProgress? && !queue[i].payload.StreamBacklog?
  }

  lemma AddedIsCompact(size: Size, queue: seq<Frame>, p: Payload)
    requires Compact(queue)
    ensures Compact(Added(size, queue, p))
  {
    if |queue| > 0 {
      match Merge(queue, p)
      case Some(merged) => MergedIsCompact(queue[..|queue| - 1], queue[|queue| - 1], queue, p, MakeFrame(size, merged, true));
      case None => LastPushedIsCompact(queue, MakeFrame(size, p, false));
    }
  }

  lemma MergedIsCompact(front: seq<Frame>, last: Frame, queue: seq<Frame>, p: Payload, f: Frame)
    requires Compact(queue) && queue == front + [last] && Coalesce(last.payload, p) == Some(f.payload)
    ensures Compact(front + [f])
  {
    LastReplacedIsCompact(front, last, p, f);
  }

  /** A merged payload continues what its first part continued. */
  lemma MergedContinues(before: Payload, last: Payload, p: Payload)
    requires Coalesce(last, p).Some?
    ensures Mergeable(before, Coalesce(last, p).value) <==> Mergeable(before, last)
  {
  }

  lemma LastReplacedIsCompact(front: seq<Frame>, last: Frame, p: Payload, f: Frame)
    requires Compact(front + [last]) && Coalesce(last.payload, p) == Some(f.payload)
    ensures Compact(front + [f])
  {
    if |front| > 0 { MergedContinues(front[|front| - 1].payload, last.payload, p); }
    var queue, added := front + [last], front + [f];
    forall i, j | 0 <= i && j == i + 1 && j < |added| && Mergeable(added[i].payload, added[j].payload)
      ensures added[i].coalesced && !added[i].payload.LoadProgress? && !added[i].payload.StreamBacklog?
    {
      assert added[i] == queue[i] && Mergeable(queue[i].payload, queue[j].payload);
    }
  }

  lemma LastPushedIsCompact(queue: seq<Frame>, f: Frame)
    requires Compact(queue) && |queue| > 0
    requires var last := queue[|queue| - 1]; Mergeable(last.payload, f.payload) ==>
      last.coalesced && !last.payload.LoadProgress? && !last.payload.StreamBacklog?
    ensures Compact(queue + [f])
  {
    var added := queue + [f];
    forall i, j | 0 <= i && j == i + 1 && j < |added| && Mergeable(added[i].payload, added[j].payload)
      ensures added[i].coalesced && !added[i].payload.LoadProgress? && !added[i].payload.StreamBacklog?
    {
      assert added[i] == queue[i];
      if j < |queue| { assert added[j] == queue[j]; }
    }
  }

  // ---------- once and in order ----------

  /** `p` carries the emitted payloads `group`: one as it was, two as one, or the last of some notices. */
  predicate Carries(p: Payload, group: seq<Payload>) {
    || (|group| == 1 && p == group[0])
    || (|group| == 2 && p.Append? && group[0].Append? && group[1].Append?
        && p == Append(group[0].rows + group[1].rows, group[0].from) && group[0].from + |group[0].rows| == group[1].from)
    || (|group| == 2 && p.Patch? && group[0].Patch? && group[1].Patch? && p == Patch(group[0].updates + group[1].updates))
    || (|group| > 0 && p == group[|group| - 1] && forall i :: 0 <= i < |group| ==> group[i].LoadProgress?)
    || (|group| > 0 && p == group[|group| - 1] && forall i :: 0 <= i < |group| ==> group[i].StreamBacklog?)
  }

  function Flatten(groups: seq<seq<Payload>>): seq<Payload> {
    if |groups| == 0 then [] else Flatten(groups[..|groups| - 1]) + groups[|groups| - 1]
  }

  /** Pings and backlog notices are the writer's own. */
  predicate IsOwn(p: Payload) {
    p.Ping? || p.StreamBacklog?
  }

  /** Everything but those. */
  function Told(payloads: seq<Payload>): seq<Payload> {
    if |payloads| == 0 then []
    else
      var n := |payloads| - 1;
      Told(payloads[..n]) + if IsOwn(payloads[n]) then [] else [payloads[n]]
  }

  lemma ToldSnoc(payloads: seq<Payload>, p: Payload)
    ensures Told(payloads + [p]) == Told(payloads) + if IsOwn(p) then [] else [p]
  {
    assert (payloads + [p])[..|payloads|] == payloads;
  }

  lemma FlattenSnoc(groups: seq<seq<Payload>>, group: seq<Payload>)
    ensures Flatten(groups + [group]) == Flatten(groups) + group
  {
    assert (groups + [group])[..|groups|] == groups;
  }

  /** Up to the queue the client is told the script and then `past`; `past` and the queue carry the groups, one each;
      and a frame that is not merged carries one payload. */
  ghost predicate Tells(s: Stream, script: seq<Payload>, past: seq<Payload>, groups: seq<seq<Payload>>) {
    && Told(StreamLaws.Ahead(s)) == script + past
    && PastCarries(past, groups) && QueueCarries(s.queue, |past|, groups)
  }

  ghost predicate PastCarries(past: seq<Payload>, groups: seq<seq<Payload>>) {
    |past| <= |groups| && forall i :: 0 <= i < |past| ==> Carries(past[i], groups[i])
  }

  ghost predicate QueueCarries(queue: seq<Frame>, from: nat, groups: seq<seq<Payload>>) {
    && from + |queue| == |groups|
    && forall i :: 0 <= i < |queue| ==> FrameCarries(queue[i], groups[from + i])
  }

  predicate FrameCarries(f: Frame, group: seq<Payload>) {
    Carries(f.payload, group) && !IsOwn(f.payload) && (f.coalesced || |group| == 1)
  }

  lemma MergedCarries(last: Frame, group: seq<Payload>, p: Payload, merged: Frame)
    requires FrameCarries(last, group) && merged.coalesced
    requires CanCoalesce(last, p) && Coalesce(last.payload, p) == Some(merged.payload)
    ensures FrameCarries(merged, group + [p])
  {
    if last.payload.LoadProgress? {
      assert forall i :: 0 <= i < |group| ==> group[i].LoadProgress?;
    } else {
      assert group == [last.payload];
    }
  }

  /** The groups once a payload is added to the queue. */
  function AddedGroups(queue: seq<Frame>, groups: seq<seq<Payload>>, p: Payload): seq<seq<Payload>> {
    if Merge(queue, p).Some? && |groups| > 0 then groups[..|groups| - 1] + [groups[|groups| - 1] + [p]] else groups + [[p]]
  }

  lemma AddedCarries(size: Size, queue: seq<Frame>, from: nat, groups: seq<seq<Payload>>, p: Payload)
    requires QueueCarries(queue, from, groups) && !IsOwn(p)
    ensures QueueCarries(Added(size, queue, p), from, AddedGroups(queue, groups, p))
    ensures Flatten(AddedGroups(queue, groups, p)) == Flatten(groups) + [p]
    ensures |groups| <= |AddedGroups(queue, groups, p)| && AddedGroups(queue, groups, p)[..from] == groups[..from]
  {
    match Merge(queue, p)
    case None =>
      FlattenSnoc(groups, [p]);
      PushedCarries(queue, from, groups, MakeFrame(size, p, false), [p]);
    case Some(merged) =>
      var n := |groups| - 1;
      MergedCarries(queue[|queue| - 1], groups[n], p, MakeFrame(size, merged, true));
      FlattenReplaced(groups, p);
      ReplacedCarries(queue, from, groups, MakeFrame(size, merged, true), groups[n] + [p]);
  }

  lemma FlattenReplaced(groups: seq<seq<Payload>>, p: Payload)
    requires |groups| > 0
    ensures var n := |groups| - 1; Flatten(groups[..n] + [groups[n] + [p]]) == Flatten(groups) + [p]
  {
    var n := |groups| - 1;
    FlattenSnoc(groups[..n], groups[n] + [p]);
    assert Flatten(groups[..n]) + (groups[n] + [p]) == (Flatten(groups[..n]) + groups[n]) + [p];
  }

  lemma PushedCarries(queue: seq<Frame>, from: nat, groups: seq<seq<Payload>>, f: Frame, group: seq<Payload>)
    requires QueueCarries(queue, from, groups) && FrameCarries(f, group)
    ensures QueueCarries(queue + [f], from, groups + [group]) && (groups + [group])[..from] == groups[..from]
  {
  }

  lemma ReplacedCarries(queue: seq<Frame>, from: nat, groups: seq<seq<Payload>>, f: Frame, group: seq<Payload>)
    requires QueueCarries(queue, from, groups) && |queue| > 0 && FrameCarries(f, group)
    ensures var m := groups[..|groups| - 1] + [group];
      QueueCarries(queue[..|queue| - 1] + [f], from, m) && m[..from] == groups[..from]
  {
  }

  lemma EnqueueTells(size: Size, limits: Limits, s: Stream, script: seq<Payload>, past: seq<Payload>, groups: seq<seq<Payload>>, p: Payload)
    requires StreamLaws.Accounted(size, limits, s) && s.endReason.None? && Tells(s, script, past, groups) && !IsOwn(p)
    requires Enqueue(size, limits, s, p).endReason.None?
    ensures Tells(Enqueue(size, limits, s, p), script, past, AddedGroups(s.queue, groups, p))
    ensures Flatten(AddedGroups(s.queue, groups, p)) == Flatten(groups) + [p]
  {
    OverflowsIff(size, limits, s, p);
    AddedCarries(size, s.queue, |past|, groups, p);
    EnqueueKeepsAhead(size, limits, s, p);
    PastCarriesOn(past, groups, AddedGroups(s.queue, groups, p));
  }

  lemma PastCarriesOn(past: seq<Payload>, groups: seq<seq<Payload>>, more: seq<seq<Payload>>)
    requires PastCarries(past, groups) && |groups| <= |more| && more[..|past|] == groups[..|past|]
    ensures PastCarries(past, more)
  {
    assert forall i :: 0 <= i < |past| ==> more[i] == more[..|past|][i] == groups[..|past|][i] == groups[i];
  }

  lemma EnqueueKeepsAhead(size: Size, limits: Limits, s: Stream, p: Payload)
    ensures StreamLaws.Ahead(Enqueue(size, limits, s, p)) == StreamLaws.Ahead(s)
  {
    EnqueueKeepsWriter(size, limits, s, p);
    SameAhead(s, Enqueue(size, limits, s, p));
  }

  lemma EnqueueKeepsWriter(size: Size, limits: Limits, s: Stream, p: Payload)
    ensures var t := Enqueue(size, limits, s, p); t.phase == s.phase && t.writing == s.writing && t.delivered == s.delivered
  {
  }

  lemma SameAhead(s: Stream, t: Stream)
    requires t.phase == s.phase && t.writing == s.writing && t.delivered == s.delivered
    ensures StreamLaws.Ahead(t) == StreamLaws.Ahead(s)
  {
  }

  // ---------- the writer ----------

  /** What running on to the next await moves ahead of the queue. */
  datatype Moved = NothingMoved | OwnMoved(p: Payload) | FrameMoved

  /** `t` is `s` with that moved. */
  ghost predicate Moves(s: Stream, m: Moved, t: Stream) {
    match m
    case NothingMoved => StreamLaws.Ahead(t) == StreamLaws.Ahead(s) && t.queue == s.queue
    case OwnMoved(p) => IsOwn(p) && StreamLaws.Ahead(t) == StreamLaws.Ahead(s) + [p] && t.queue == s.queue
    case FrameMoved =>
      |s.queue| > 0 && StreamLaws.Ahead(t) == StreamLaws.Ahead(s) + [s.queue[0].payload] && t.queue == s.queue[1..]
  }

  lemma AdvanceMoves(s: Stream) returns (m: Moved)
    requires s.writing == Nothing && s.endReason.None? && !s.phase.Ending? && !s.phase.Closed?
    ensures Moves(s, m, Advance(s))
  {
    match s.phase
    case Snapshot(rest) =>
      if |rest| > 0 {
        m := NothingMoved;
        ScriptMoves(s);
      } else if |s.queue| > 0 {
        m := OwnMoved(StreamBacklog(|s.queue|, RowSum(s.queue)));
        WriteMoves(s, Advance(s), StreamBacklog(|s.queue|, RowSum(s.queue)));
      } else {
        var live := s.(phase := Live);
        m := LiveMoves(live);
        assert StreamLaws.Ahead(live) == StreamLaws.Ahead(s);
      }
    case DrainingBacklog =>
      if |s.queue| > 0 {
        m := FrameMoved;
        WriteMoves(s, Advance(s), s.queue[0].payload);
      } else {
        m := OwnMoved(StreamBacklog(0, 0));
        WriteMoves(s, Advance(s), StreamBacklog(0, 0));
      }
    case Live => m := LiveMoves(s);
  }

  lemma ScriptMoves(s: Stream)
    requires s.writing == Nothing && s.endReason.None? && s.phase.Snapshot? && |s.phase.rest| > 0
    ensures StreamLaws.Ahead(Advance(s)) == StreamLaws.Ahead(s)
  {
    var rest := s.phase.rest;
    assert [rest[0]] + rest[1..] == [] + rest;
  }

  /** A write that starts comes right after what was ahead. */
  lemma WriteMoves(s: Stream, t: Stream, p: Payload)
    requires s.writing == Nothing && |StreamLaws.Scripted(s)| == 0 && |StreamLaws.Scripted(t)| == 0
    requires t.delivered == s.delivered && StreamLaws.Awaited(t) == [p]
    ensures StreamLaws.Ahead(t) == StreamLaws.Ahead(s) + [p]
  {
    assert s.delivered + ([] + []) == s.delivered;
    assert s.delivered + ([p] + []) == s.delivered + [p];
  }

  lemma LiveMoves(s: Stream) returns (m: Moved)
    requires s.writing == Nothing && s.endReason.None? && s.phase.Live?
    ensures Moves(s, m, AdvanceLive(s))
  {
    m := NothingMoved;
    if |s.queue| > 0 {
      m := FrameMoved;
      WriteMoves(s, AdvanceLive(s), s.queue[0].payload);
    } else if s.heartbeatDue {
      m := OwnMoved(Ping);
      WriteMoves(s, AdvanceLive(s), Ping);
    }
  }

  lemma AdvanceTells(s: Stream, script: seq<Payload>, past: seq<Payload>, groups: seq<seq<Payload>>) returns (past': seq<Payload>)
    requires s.writing == Nothing && s.endReason.None? && !s.phase.Ending? && !s.phase.Closed?
    requires Tells(s, script, past, groups)
    ensures Tells(Advance(s), script, past', groups)
  {
    var m := AdvanceMoves(s);
    past' := past;
    match m
    case NothingMoved =>
    case OwnMoved(p) => ToldSnoc(StreamLaws.Ahead(s), p);
    case FrameMoved =>
      past' := past + [s.queue[0].payload];
      FrameTells(s, Advance(s), script, past, groups);
  }

  lemma FrameTells(s: Stream, t: Stream, script: seq<Payload>, past: seq<Payload>, groups: seq<seq<Payload>>)
    requires Tells(s, script, past, groups) && Moves(s, FrameMoved, t)
    ensures Tells(t, script, past + [s.queue[0].payload], groups)
  {
    var p := s.queue[0].payload;
    ToldSnoc(StreamLaws.Ahead(s), p);
    assert (script + past) + [p] == script + (past + [p]);
    QueueCarriesOn(s.queue, |past|, groups);
    PastCarriesOne(past, p, groups);
  }

  lemma PastCarriesOne(past: seq<Payload>, p: Payload, groups: seq<seq<Payload>>)
    requires PastCarries(past, groups) && |past| < |groups| && Carries(p, groups[|past|])
    ensures PastCarries(past + [p], groups)
  {
  }

  lemma QueueCarriesOn(queue: seq<Frame>, from: nat, groups: seq<seq<Payload>>)
    requires QueueCarries(queue, from, groups) && |queue| > 0
    ensures FrameCarries(queue[0], groups[from]) && QueueCarries(queue[1..], from + 1, groups)
  {
    assert forall i :: 0 <= i < |queue[1..]| ==> queue[1..][i] == queue[i + 1];
  }

  lemma CompleteTells(s: Stream, script: seq<Payload>, past: seq<Payload>, groups: seq<seq<Payload>>)
    requires Tells(s, script, past, groups)
    ensures Tells(Complete(s), script, past, groups)
  {
    CompleteKeepsAhead(s);
  }

  lemma CompleteKeepsAhead(s: Stream)
    ensures StreamLaws.Ahead(Complete(s)) == StreamLaws.Ahead(s)
  {
    if s.writing != Nothing { StreamLaws.MovesToDelivered(s.delivered, StreamLaws.Awaited(s), StreamLaws.Scripted(s)); }
  }

  /** No step of the writer loses, repeats or reorders anything. */
  lemma NextTells(size: Size, limits: Limits, s: Stream, step: Step, script: seq<Payload>, past: seq<Payload>, groups: seq<seq<Payload>>)
    returns (past': seq<Payload>)
    requires StreamLaws.Accounted(size, limits, s) && Tells(s, script, past, groups) && Next(s, step).endReason.None?
    ensures Tells(Next(s, step), script, past', groups)
  {
    past' := past;
    match step
    case Wrote =>
      if s.writing != Nothing {
        StreamLaws.AdvanceEnds(Complete(s));
        CompleteTells(s, script, past, groups);
        past' := AdvanceTells(Complete(s), script, past, groups);
      }
    case Woke => if s.writing == Nothing && s.phase == Live { past' := AdvanceTells(s, script, past, groups); }
    case Heartbeat => assert StreamLaws.Ahead(Next(s, step)) == StreamLaws.Ahead(s);
    case End(reason) =>
    case Disconnect =>
  }

  /** Everything emitted is told in the end, as it was or merged in pairs. */
  lemma {:induction false} HearTells(
      size: Size, limits: Limits, s: Stream, payloads: seq<Payload>, script: seq<Payload>, past: seq<Payload>, groups: seq<seq<Payload>>)
    returns (groups': seq<seq<Payload>>)
    requires StreamLaws.Accounted(size, limits, s) && s.endReason.None? && Tells(s, script, past, groups)
    requires Hear(size, limits, s, payloads).endReason.None? && forall p :: p in payloads ==> !IsOwn(p)
    ensures Tells(Hear(size, limits, s, payloads), script, past, groups') && Flatten(groups') == Flatten(groups) + payloads
    decreases |payloads|
  {
    groups' := groups;
    if |payloads| > 0 {
      groups' := FirstTells(size, limits, s, payloads, script, past, groups);
      groups' := HearTells(size, limits, Enqueue(size, limits, s, payloads[0]), payloads[1..], script, past, groups');
      FirstAndMore(Flatten(groups), payloads);
    }
  }

  lemma FirstAndMore(before: seq<Payload>, payloads: seq<Payload>)
    requires |payloads| > 0
    ensures (before + [payloads[0]]) + payloads[1..] == before + payloads
  {
  }

  lemma FirstTells(
      size: Size, limits: Limits, s: Stream, payloads: seq<Payload>, script: seq<Payload>, past: seq<Payload>, groups: seq<seq<Payload>>)
    returns (groups': seq<seq<Payload>>)
    requires StreamLaws.Accounted(size, limits, s) && s.endReason.None? && Tells(s, script, past, groups)
    requires |payloads| > 0 && Hear(size, limits, s, payloads).endReason.None? && !IsOwn(payloads[0])
    ensures
      var t := Enqueue(size, limits, s, payloads[0]);
      && t.endReason.None? && StreamLaws.Accounted(size, limits, t) && Hear(size, limits, t, payloads[1..]).endReason.None?
      && Tells(t, script, past, groups') && Flatten(groups') == Flatten(groups) + [payloads[0]]
  {
    StillOpen(size, limits, Enqueue(size, limits, s, payloads[0]), payloads[1..]);
    StreamLaws.EnqueueAccounts(size, limits, s, payloads[0]);
    EnqueueTells(size, limits, s, script, past, groups, payloads[0]);
    groups' := AddedGroups(s.queue, groups, payloads[0]);
  }

  lemma {:induction false} StillOpen(size: Size, limits: Limits, s: Stream, payloads: seq<Payload>)
    ensures s.endReason.Some? ==> Hear(size, limits, s, payloads).endReason == s.endReason
    decreases |payloads|
  {
    if |payloads| > 0 { StillOpen(size, limits, if s.attached then Enqueue(size, limits, s, payloads[0]) else s, payloads[1..]); }
  }
}
