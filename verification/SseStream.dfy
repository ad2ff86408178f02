/** The stream handler as the program runs it: a queue array and three counters, updated by the listener,
    by the end requests and by the writer. */
module SseStream {
  import opened Collections
  import opened Frames
  import opened StreamSpec

  class SseStream {
    const size: Size
    const limits: Limits
    var queue: seq<Frame>
    var pendingBytes: int
    var pendingFrames: int
    var pendingRows: int
    var endReason: Option<EndReason>
    var aborted: bool
    var attached: bool
    var heartbeatDue: bool
    var phase: Phase
    var writing: Writing
    var delivered: seq<Payload>

    ghost function State(): Stream
      reads this
    {
      Stream(queue, pendingBytes, pendingFrames, pendingRows, endReason, aborted, attached, heartbeatDue, phase, writing, delivered)
    }

    /** Subscribes, takes the snapshot and starts writing it. */
    constructor (size: Size, rows: seq<Row>, progress: LoadPhase, sticky: seq<Payload>, limits: Limits := DEFAULT_LIMITS)
      ensures this.size == size && this.limits == limits
      ensures State() == Open(size, limits, rows, progress, sticky)
    {
      this.size, this.limits := size, limits;
      queue, pendingBytes, pendingFrames, pendingRows := [], 0, 0, 0;
      endReason, aborted, attached, heartbeatDue := None, false, true, false;
      phase, writing, delivered := Snapshot(SnapshotScript(rows, progress)), Nothing, [];
      new;
      Listen(sticky);
      RunOn();
    }

    method ClearQueuedFrames()
      modifies this`queue, this`pendingBytes, this`pendingFrames, this`pendingRows
      ensures State() == ClearQueue(old(State()))
    {
      var i := 0;
      ghost var all := queue;
      assert all[0..] == all;
      while i < |queue|
        invariant i <= |queue| && queue == all
        invariant pendingBytes - ByteSum(all[i..]) == old(pendingBytes) - ByteSum(all)
        invariant pendingFrames + i == old(pendingFrames)
        invariant pendingRows - RowSum(all[i..]) == old(pendingRows) - RowSum(all)
      {
        assert all[i..][1..] == all[i + 1..];
        pendingBytes := pendingBytes - queue[i].byteLength;
        pendingFrames := pendingFrames - 1;
        pendingRows := pendingRows - queue[i].rowCount;
        i := i + 1;
      }
      queue := [];
    }

    method End(reason: EndReason)
      modifies this`queue, this`pendingBytes, this`pendingFrames, this`pendingRows, this`endReason, this`attached
      ensures State() == RequestEnd(old(State()), reason)
    {
      if endReason.Some? {
        return;
      }
      endReason := Some(reason);
      ClearQueuedFrames();
      attached := false;
    }

    /** The client goes away. */
    method OnAbort()
      modifies this`queue, this`pendingBytes, this`pendingFrames, this`pendingRows, this`endReason, this`attached, this`aborted
      ensures State() == Next(old(State()), Disconnect)
    {
      aborted := true;
      End(Abort);
    }

    method Enqueue(payload: Payload)
      modifies this`queue, this`pendingBytes, this`pendingFrames, this`pendingRows, this`endReason, this`attached
      ensures State() == StreamSpec.Enqueue(size, limits, old(State()), payload)
    {
      if endReason.Some? {
        return;
      }
      if |queue| > 0 {
        var last := queue[|queue| - 1];
        var merged := if CanCoalesce(last, payload) then Coalesce(last.payload, payload) else None;
        if merged.Some? {
          Replace(MakeFrame(size, merged.value, true));
          return;
        }
      }
      Push(MakeFrame(size, payload, false));
    }

    method Replace(replacement: Frame)
      requires |queue| > 0
      modifies this`queue, this`pendingBytes, this`pendingFrames, this`pendingRows, this`endReason, this`attached
      ensures State() == ReplaceLast(limits, old(State()), replacement)
    {
      var last := queue[|queue| - 1];
      var nextBytes := pendingBytes - last.byteLength + replacement.byteLength;
      var nextRows := pendingRows - last.rowCount + replacement.rowCount;
      if Exceeds(limits, nextBytes, pendingFrames, nextRows) {
        End(Overflow);
        return;
      }
      queue := queue[|queue| - 1 := replacement];
      pendingBytes, pendingRows := nextBytes, nextRows;
    }

    method Push(frame: Frame)
      modifies this`queue, this`pendingBytes, this`pendingFrames, this`pendingRows, this`endReason, this`attached
      ensures State() == PushFrame(limits, old(State()), frame)
    {
      var nextBytes := pendingBytes + frame.byteLength;
      var nextFrames := pendingFrames + 1;
      var nextRows := pendingRows + frame.rowCount;
      if Exceeds(limits, nextBytes, nextFrames, nextRows) {
        End(Overflow);
        return;
      }
      queue := queue + [frame];
      pendingBytes, pendingFrames, pendingRows := nextBytes, nextFrames, nextRows;
    }

    /** The listener: only while subscribed. */
    method Listen(payloads: seq<Payload>)
      modifies this`queue, this`pendingBytes, this`pendingFrames, this`pendingRows, this`endReason, this`attached
      ensures State() == Hear(size, limits, old(State()), payloads)
    {
      var i := 0;
      assert payloads[0..] == payloads;
      while i < |payloads|
        invariant i <= |payloads|
        invariant Hear(size, limits, State(), payloads[i..]) == Hear(size, limits, old(State()), payloads)
      {
        assert payloads[i..][1..] == payloads[i + 1..];
        if attached {
          Enqueue(payloads[i]);
        }
        i := i + 1;
      }
    }

    /** The awaited write has ended; the writer runs on to its next await. */
    method OnWritten()
      requires writing != Nothing
      modifies this
      ensures State() == Next(old(State()), Wrote)
    {
      CompleteWrite();
      RunOn();
    }

    method CompleteWrite()
      modifies this
      ensures State() == Complete(old(State())) && writing == Nothing
    {
      match writing {
        case Nothing =>
        case Direct(p) =>
          delivered := delivered + [p];
        case Queued(f) =>
          delivered := delivered + [f.payload];
          pendingBytes := pendingBytes - f.byteLength;
          pendingFrames := pendingFrames - 1;
          pendingRows := pendingRows - f.rowCount;
      }
      writing := Nothing;
    }

    /** From one await of the writer to the next. */
    method RunOn()
      requires writing == Nothing
      modifies this
      ensures State() == Advance(old(State()))
    {
      match phase {
        case Snapshot(rest) =>
          var unchecked := |rest| > 0 && (rest[0].SnapshotBegin? || rest[0].LoadProgress?);
          if endReason.Some? && !unchecked {
            WriteTermination();
          } else if |rest| > 0 {
            phase, writing := Snapshot(rest[1..]), Direct(rest[0]);
          } else if |queue| > 0 {
            var queuedRows := SumRows();
            phase, writing := DrainingBacklog, Direct(StreamBacklog(|queue|, queuedRows));
          } else {
            phase := Live;
            Drain();
          }
        case DrainingBacklog =>
          if endReason.Some? {
            WriteTermination();
          } else if |queue| > 0 {
            writing := Queued(queue[0]);
            queue := queue[1..];
          } else {
            phase, writing := Live, Direct(StreamBacklog(0, 0));
          }
        case Live =>
          Drain();
        case Ending(_) =>
          WriteNextFarewell();
        case Closed =>
      }
    }

    method SumRows() returns (n: nat)
      ensures n == RowSum(queue)
    {
      n := 0;
      var i := 0;
      assert queue[0..] == queue;
      while i < |queue|
        invariant i <= |queue|
        invariant n + RowSum(queue[i..]) == RowSum(queue)
      {
        assert queue[i..][1..] == queue[i + 1..];
        n := n + queue[i].rowCount;
        i := i + 1;
      }
    }

    /** The live loop: queued frames first, then a due heartbeat, else wait. */
    method Drain()
      requires writing == Nothing
      modifies this
      ensures State() == AdvanceLive(old(State()))
    {
      if endReason.Some? {
        WriteTermination();
      } else if |queue| > 0 {
        writing := Queued(queue[0]);
        queue := queue[1..];
      } else if heartbeatDue {
        heartbeatDue := false;
        writing := Direct(Ping);
      }
    }

    method WriteTermination()
      requires writing == Nothing && endReason.Some?
      modifies this
      ensures State() == Farewell(old(State()))
    {
      phase := Ending(if aborted then [] else FarewellScript(endReason.value));
      WriteNextFarewell();
    }

    method WriteNextFarewell()
      requires writing == Nothing && phase.Ending?
      modifies this
      ensures State() == AdvanceEnding(old(State()))
    {
      if |phase.rest| == 0 {
        ClearQueuedFrames();
        phase, attached := Closed, false;
      } else {
        writing := Direct(phase.rest[0]);
        phase := Ending(phase.rest[1..]);
      }
    }
  }
}
