/** One live stream: a snapshot, then a bounded, coalescing queue drained by a writer. Every await of the
    writer is a point where the server may emit more or the stream may be ended. */
module StreamSpec {
  import opened Collections
  import opened Frames

  const SNAPSHOT_CHUNK: nat := 2000

  datatype Limits = Limits(maxBytes: nat, maxFrames: nat, maxRows: nat)

  const DEFAULT_LIMITS := Limits(4 * 1024 * 1024, 128, 10_000)

  /** `size` is the byte length of a payload written as an event. */
  type Size = Payload -> nat

  datatype Frame = Frame(payload: Payload, byteLength: nat, rowCount: nat, coalesced: bool)

  datatype EndReason = Abort | Overflow | Reset

  /** Where the writer is: `Snapshot(rest)` has `rest` still to write, `Ending(rest)` likewise for the
      farewell. */
  datatype Phase = Snapshot(rest: seq<Payload>) | DrainingBacklog | Live | Ending(rest: seq<Payload>) | Closed

  /** The write that is awaited. */
  datatype Writing = Nothing | Direct(payload: Payload) | Queued(frame: Frame)

  datatype Stream = Stream(
    queue: seq<Frame>, pendingBytes: int, pendingFrames: int, pendingRows: int,
    endReason: Option<EndReason>, aborted: bool, attached: bool, heartbeatDue: bool,
    phase: Phase, writing: Writing, delivered: seq<Payload>)

  // ---------- frames ----------

  function RowCount(p: Payload): nat {
    match p
    case Append(rows, _) => |rows|
    case SnapshotChunk(chunk, _) => |chunk|
    case Patch(updates) => |updates|
    case _ => 0
  }

  function MakeFrame(size: Size, p: Payload, coalesced: bool): Frame {
    Frame(p, size(p), RowCount(p), coalesced)
  }

  function Coalesce(previous: Payload, next: Payload): Option<Payload> {
    match (previous, next)
    case (Append(rows, from), Append(more, at)) =>
      if from + |rows| == at then Some(Append(rows + more, from)) else None
    case (Patch(updates), Patch(more)) => Some(Patch(updates + more))
    case (LoadProgress(_, _), LoadProgress(_, _)) => Some(next)
    case (StreamBacklog(_, _), StreamBacklog(_, _)) => Some(next)
    case _ => None
  }

  /** Growing merges are limited to pairs; the replaceable notices always merge with their own kind. */
  predicate CanCoalesce(previous: Frame, next: Payload) {
    if previous.payload.LoadProgress? then next.LoadProgress?
    else if previous.payload.StreamBacklog? then next.StreamBacklog?
    else !previous.coalesced
  }

  function Merge(queue: seq<Frame>, p: Payload): Option<Payload> {
    if |queue| == 0 || !CanCoalesce(queue[|queue| - 1], p) then None
    else Coalesce(queue[|queue| - 1].payload, p)
  }

  // ---------- the queue ----------

  function ByteSum(queue: seq<Frame>): nat {
    if |queue| == 0 then 0 else queue[0].byteLength + ByteSum(queue[1..])
  }

  function RowSum(queue: seq<Frame>): nat {
    if |queue| == 0 then 0 else queue[0].rowCount + RowSum(queue[1..])
  }

  /** `requestEnd`: the first reason wins; what is queued is forgotten, and so is the server. */
  function RequestEnd(s: Stream, reason: EndReason): Stream {
    if s.endReason.Some? then s
    else ClearQueue(s).(endReason := Some(reason), attached := false)
  }

  function ClearQueue(s: Stream): Stream {
    s.(queue := [],
       pendingBytes := s.pendingBytes - ByteSum(s.queue),
       pendingFrames := s.pendingFrames - |s.queue|,
       pendingRows := s.pendingRows - RowSum(s.queue))
  }

  predicate Exceeds(limits: Limits, bytes: int, frames: int, rows: int) {
    bytes > limits.maxBytes || frames > limits.maxFrames || rows > limits.maxRows
  }

  function Enqueue(size: Size, limits: Limits, s: Stream, p: Payload): Stream {
    if s.endReason.Some? then s
    else
      match Merge(s.queue, p)
      case Some(merged) => ReplaceLast(limits, s, MakeFrame(size, merged, true))
      case None => PushFrame(limits, s, MakeFrame(size, p, false))
  }

  function ReplaceLast(limits: Limits, s: Stream, f: Frame): Stream {
    if |s.queue| == 0 then s
    else
      var last := s.queue[|s.queue| - 1];
      var bytes := s.pendingBytes - last.byteLength + f.byteLength;
      var rows := s.pendingRows - last.rowCount + f.rowCount;
      if Exceeds(limits, bytes, s.pendingFrames, rows) then RequestEnd(s, Overflow)
      else s.(queue := s.queue[|s.queue| - 1 := f], pendingBytes := bytes, pendingRows := rows)
  }

  function PushFrame(limits: Limits, s: Stream, f: Frame): Stream {
    var bytes := s.pendingBytes + f.byteLength;
    var frames := s.pendingFrames + 1;
    var rows := s.pendingRows + f.rowCount;
    if Exceeds(limits, bytes, frames, rows) then RequestEnd(s, Overflow)
    else s.(queue := s.queue + [f], pendingBytes := bytes, pendingFrames := frames, pendingRows := rows)
  }

  /** The server emits; only a subscribed stream hears it. */
  function Hear(size: Size, limits: Limits, s: Stream, payloads: seq<Payload>): Stream
    decreases |payloads|
  {
    if |payloads| == 0 then s
    else Hear(size, limits, if s.attached then Enqueue(size, limits, s, payloads[0]) else s, payloads[1..])
  }

  // ---------- the writer ----------

  /** The awaited write has ended. */
  function Complete(s: Stream): Stream {
    match s.writing
    case Nothing => s
    case Direct(p) => s.(writing := Nothing, delivered := s.delivered + [p])
    case Queued(f) =>
      s.(writing := Nothing, delivered := s.delivered + [f.payload],
         pendingBytes := s.pendingBytes - f.byteLength,
         pendingFrames := s.pendingFrames - 1,
         pendingRows := s.pendingRows - f.rowCount)
  }

  /** The writer runs on to its next await. */
  function Advance(s: Stream): Stream {
    match s.phase
    case Snapshot(rest) =>
      if s.endReason.Some? && !(|rest| > 0 && (rest[0].SnapshotBegin? || rest[0].LoadProgress?)) then Farewell(s)
      else if |rest| > 0 then s.(phase := Snapshot(rest[1..]), writing := Direct(rest[0]))
      else if |s.queue| > 0 then s.(phase := DrainingBacklog, writing := Direct(StreamBacklog(|s.queue|, RowSum(s.queue))))
      else AdvanceLive(s.(phase := Live))
    case DrainingBacklog =>
      if s.endReason.Some? then Farewell(s)
      else if |s.queue| > 0 then Shift(s)
      else s.(phase := Live, writing := Direct(StreamBacklog(0, 0)))
    case Live => AdvanceLive(s)
    case Ending(rest) => AdvanceEnding(s)
    case Closed => s
  }

  function Shift(s: Stream): Stream {
    if |s.queue| == 0 then s else s.(queue := s.queue[1..], writing := Queued(s.queue[0]))
  }

  function AdvanceLive(s: Stream): Stream {
    if s.endReason.Some? then Farewell(s)
    else if |s.queue| > 0 then Shift(s)
    else if s.heartbeatDue then s.(heartbeatDue := false, writing := Direct(Ping))
    else s
  }

  function FarewellScript(reason: EndReason): seq<Payload> {
    match reason
    case Abort => []
    case Overflow => [StreamError("stream-overflow"), LogReset, Bye]
    case Reset => [LogReset, Bye]
  }

  /** What is still said at the end: nothing to a connection that is gone, whatever ended the stream first. */
  function LastWords(s: Stream): seq<Payload>
    requires s.endReason.Some?
  {
    if s.aborted then [] else FarewellScript(s.endReason.value)
  }

  function Farewell(s: Stream): Stream {
    if s.endReason.None? then s else AdvanceEnding(s.(phase := Ending(LastWords(s))))
  }

  function AdvanceEnding(s: Stream): Stream {
    if !s.phase.Ending? then s
    else if |s.phase.rest| == 0 then ClearQueue(s).(phase := Closed, attached := false)
    else s.(phase := Ending(s.phase.rest[1..]), writing := Direct(s.phase.rest[0]))
  }

  // ---------- opening ----------

  function Chunks(rows: seq<Row>, at: nat): seq<Payload>
    decreases |rows| - at
  {
    if at >= |rows| then []
    else
      var end := if at + SNAPSHOT_CHUNK <= |rows| then at + SNAPSHOT_CHUNK else |rows|;
      [SnapshotChunk(rows[at..end], at)] + Chunks(rows, at + SNAPSHOT_CHUNK)
  }

  function SnapshotScript(rows: seq<Row>, progress: LoadPhase): seq<Payload> {
    [SnapshotBegin(|rows|)] + Chunks(rows, 0) + [SnapshotEnd]
    + (if progress == NotLoading then [] else [LoadProgress(progress, |rows|)])
  }

  /** Subscribing replays the sticky warnings into the queue; the snapshot is taken right after. */
  function Open(size: Size, limits: Limits, rows: seq<Row>, progress: LoadPhase, sticky: seq<Payload>): Stream {
    var s := Stream([], 0, 0, 0, None, false, true, false, Snapshot(SnapshotScript(rows, progress)), Nothing, []);
    Advance(Hear(size, limits, s, sticky))
  }

  // ---------- steps ----------

  /** `Wrote` ends the awaited write, `Woke` wakes an idle writer, `Heartbeat` is the ping timer, which
      runs only once the stream is live, `Disconnect` is the client going away. */
  datatype Step = Wrote | Woke | Heartbeat | End(reason: EndReason) | Disconnect

  function Next(s: Stream, step: Step): Stream {
    match step
    case Wrote => if s.writing == Nothing then s else Advance(Complete(s))
    case Woke => if s.writing == Nothing && s.phase == Live then AdvanceLive(s) else s
    case Heartbeat => if s.phase == Live then s.(heartbeatDue := true) else s
    case End(reason) => RequestEnd(s, reason)
    case Disconnect => RequestEnd(s.(aborted := true), Abort)
  }
}
