/** The writer gets on: what it writes next, and after how many writes nothing is left. */
module StreamProgress {
  import opened Collections
  import opened Frames
  import opened StreamSpec
  import StreamLaws

  // ---------- what is written next ----------

  /** The writer is never stuck: it awaits a write, or waits for work, or is done. */
  predicate Poised(s: Stream) {
    s.writing != Nothing || s.phase.Live? || s.phase.Closed?
  }

  lemma AdvanceIsPoised(s: Stream)
    requires s.writing == Nothing
    ensures Poised(Advance(s))
  {
    match s.phase
    case Snapshot(rest) =>
    case DrainingBacklog =>
    case Live =>
    case Ending(rest) =>
    case Closed =>
  }

  lemma NextIsPoised(s: Stream, step: Step)
    requires Poised(s)
    ensures Poised(Next(s, step))
  {
    match step
    case Wrote => if s.writing != Nothing { AdvanceIsPoised(Complete(s)); }
    case Woke => if s.writing == Nothing && s.phase == Live { AdvanceIsPoised(s); }
    case Heartbeat =>
    case End(reason) =>
    case Disconnect =>
  }

  lemma {:induction false} HearIsPoised(size: Size, limits: Limits, s: Stream, payloads: seq<Payload>)
    ensures Poised(Hear(size, limits, s, payloads)) == Poised(s)
  {
    StreamLaws.HearKeepsWriter(size, limits, s, payloads);
  }

  /** A live writer that wakes up or ends a write takes the next frame off the queue; with the queue empty it
      sends the ping that is due; else it rests. */
  lemma LiveWritesNext(s: Stream, step: Step)
    requires s.phase.Live? && s.endReason.None?
    requires if s.writing == Nothing then step.Woke? else step.Wrote?
    ensures
      var t := Next(s, step);
      && t.phase.Live? && t.endReason.None?
      && (if |s.queue| > 0 then t.writing == Queued(s.queue[0]) && t.queue == s.queue[1..] && t.heartbeatDue == s.heartbeatDue
          else if s.heartbeatDue then t.writing == Direct(Ping) && !t.heartbeatDue && |t.queue| == 0
          else t.writing == Nothing && |t.queue| == 0)
  {
  }

  // ---------- how much is left ----------

  predicate Quiet(s: Stream) {
    s.phase.Live? && s.writing == Nothing && |s.queue| == 0 && !s.heartbeatDue
  }

  function Flying(s: Stream): nat {
    if s.writing == Nothing then 0 else 1
  }

  /** The writes to come, the one awaited included, if nothing more happens: the rest of the snapshot, the two
      backlog notices around what was queued meanwhile, the queue, the ping that is due. */
  function Left(s: Stream): nat {
    Flying(s) + |s.queue| + (if s.heartbeatDue then 1 else 0)
    + match s.phase
      case Snapshot(rest) => |rest| + if |s.queue| > 0 then 2 else 0
      case DrainingBacklog => 1
      case _ => 0
  }

  /** No end was requested, and none is under way. */
  predicate Going(s: Stream) {
    s.endReason.None? && !s.phase.Ending? && !s.phase.Closed?
  }

  lemma AdvanceLiveLeft(s: Stream)
    requires s.phase.Live? && s.writing == Nothing && s.endReason.None?
    ensures var t := AdvanceLive(s); t.phase.Live? && t.endReason.None? && Left(t) == Left(s)
    ensures AdvanceLive(s).writing == Nothing ==> Quiet(AdvanceLive(s))
  {
  }

  /** Running on to the next await writes nothing, and rests only if nothing is left. */
  lemma AdvanceLeft(s: Stream)
    requires Going(s) && s.writing == Nothing
    ensures var t := Advance(s); Going(t) && Left(t) == Left(s) && (t.writing == Nothing ==> Quiet(t))
  {
    match s.phase
    case Snapshot(rest) => if |rest| == 0 && |s.queue| == 0 { AdvanceLiveLeft(s.(phase := Live)); }
    case DrainingBacklog =>
    case Live => AdvanceLiveLeft(s);
  }

  lemma CompleteLeft(s: Stream)
    requires Going(s) && s.writing != Nothing
    ensures Going(Complete(s)) && Left(Complete(s)) == Left(s) - 1
  {
  }

  lemma WroteLeft(s: Stream)
    requires Going(s) && (s.writing == Nothing ==> Quiet(s))
    ensures
      var t := Next(s, Wrote);
      && Going(t) && (t.writing == Nothing ==> Quiet(t))
      && Left(t) == if s.writing == Nothing then 0 else Left(s) - 1
  {
    if s.writing != Nothing {
      CompleteLeft(s);
      AdvanceLeft(Complete(s));
    }
  }

  lemma WokeLeft(s: Stream)
    requires Going(s) && Poised(s)
    ensures var t := Next(s, Woke); Going(t) && Left(t) == Left(s) && (t.writing == Nothing ==> Quiet(t))
  {
    if s.writing == Nothing { AdvanceLiveLeft(s); }
  }

  /** `k` writes end, one after the other, and nothing else happens. */
  function Writes(s: Stream, k: nat): Stream
    decreases k
  {
    if k == 0 then s else Next(Writes(s, k - 1), Wrote)
  }

  lemma {:induction false} WritesDrain(s: Stream, k: nat)
    requires Going(s) && (s.writing == Nothing ==> Quiet(s))
    ensures
      var t := Writes(s, k);
      Going(t) && (t.writing == Nothing ==> Quiet(t)) && Left(t) == if k < Left(s) then Left(s) - k else 0
    decreases k
  {
    if k > 0 {
      WritesDrain(s, k - 1);
      WroteLeft(Writes(s, k - 1));
    }
  }

  /** Progress: with no end reason and nothing more emitted, the stream is quiet after exactly the writes that
      were left, and not before. */
  lemma StreamDrains(s: Stream, k: nat)
    requires Going(s) && Poised(s)
    ensures
      var t := Writes(Next(s, Woke), k);
      t.endReason.None? && (Quiet(t) <==> k >= Left(s))
  {
    WokeLeft(s);
    WritesDrain(Next(s, Woke), k);
  }

  // ---------- a stream that was ended ----------

  /** At most the writes to come once an end was requested: those of the snapshot that are not broken off, and
      the farewell. */
  function LeftToClose(s: Stream): nat
    requires s.endReason.Some?
  {
    match s.phase
    case Snapshot(rest) => Flying(s) + |rest| + |LastWords(s)|
    case DrainingBacklog => Flying(s) + |LastWords(s)|
    case Live => Flying(s) + |LastWords(s)|
    case Ending(rest) => Flying(s) + |rest|
    case Closed => 0
  }

  lemma FarewellLeft(s: Stream)
    requires s.endReason.Some? && s.writing == Nothing
    ensures var t := Farewell(s); t.endReason == s.endReason && t.aborted == s.aborted && LeftToClose(t) <= |LastWords(s)|
    ensures Farewell(s).writing == Nothing ==> Farewell(s).phase.Closed?
  {
  }

  lemma WroteLeftToClose(s: Stream)
    requires s.endReason.Some? && s.writing != Nothing && !s.phase.Closed?
    ensures
      var t := Next(s, Wrote);
      && t.endReason == s.endReason && LeftToClose(t) < LeftToClose(s)
      && (t.writing == Nothing ==> t.phase.Closed?)
  {
    var c := Complete(s);
    FarewellLeft(c);
    match s.phase
    case Snapshot(rest) => FarewellLeft(c.(phase := Live));
    case DrainingBacklog =>
    case Live =>
    case Ending(rest) =>
  }

  lemma {:induction false} WritesClose(s: Stream, k: nat)
    requires s.endReason.Some? && (s.writing == Nothing <==> s.phase.Closed?)
    ensures
      var t := Writes(s, k);
      t.endReason.Some? && (t.writing == Nothing <==> t.phase.Closed?) && (t.phase.Closed? || LeftToClose(t) + k <= LeftToClose(s))
    decreases k
  {
    if k > 0 {
      WritesClose(s, k - 1);
      var t := Writes(s, k - 1);
      if t.writing != Nothing {
        WroteLeftToClose(t);
        ClosedWritesNothing(t);
      }
    }
  }

  lemma ClosedWritesNothing(s: Stream)
    requires s.endReason.Some? && s.writing != Nothing && !s.phase.Closed?
    ensures Next(s, Wrote).phase.Closed? ==> Next(s, Wrote).writing == Nothing
  {
  }

  /** Once an end is requested the stream closes, after a bounded number of writes. */
  lemma StreamCloses(s: Stream, k: nat)
    requires Poised(s) && s.endReason.Some? && (s.phase.Closed? ==> s.writing == Nothing)
    requires k >= LeftToClose(s)
    ensures Writes(Next(s, Woke), k).phase.Closed?
  {
    if s.writing == Nothing && s.phase.Live? { FarewellLeft(s); }
    WritesClose(Next(s, Woke), k);
    var t := Writes(Next(s, Woke), k);
    if t.writing != Nothing { StillToWrite(t); }
  }

  lemma StillToWrite(s: Stream)
    requires s.endReason.Some? && s.writing != Nothing && !s.phase.Closed?
    ensures LeftToClose(s) > 0
  {
  }
}
