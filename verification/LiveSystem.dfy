/** The server and one of its streams together: in every interleaving the client's view is the server's. */
module LiveSystem {
  import opened Collections
  import opened Events
  import opened CorrelatorSpec
  import opened Frames
  import opened AppSpec
  import opened StreamSpec
  import StreamLaws

  /** What is fixed for a whole run. */
  datatype Setup = Setup(maxPending: nat, size: Size, limits: Limits)

  datatype System = System(app: App, stream: Stream)

  /** The server does something and its listeners hear it, or the stream moves by itself. */
  datatype Action = Server(op: AppSpec.Op) | Writer(step: StreamSpec.Step)

  ghost predicate Inv(u: Setup, sys: System) {
    && AppSpec.Inv(u.maxPending, sys.app)
    && StreamLaws.Accounted(u.size, u.limits, sys.stream)
    && StreamLaws.SaysGoodbye(sys.stream)
    && (sys.stream.endReason.None? ==> StreamLaws.ClientView(sys.stream) == sys.app.rows)
  }

  function Next(u: Setup, sys: System, action: Action): System
    requires Inv(u, sys)
  {
    match action
    case Server(op) =>
      var e := AppSpec.Step(u.maxPending, sys.app, op);
      System(e.app, Hear(u.size, u.limits, sys.stream, e.payloads))
    case Writer(step) => System(sys.app, StreamSpec.Next(sys.stream, step))
  }

  lemma NextKeeps(u: Setup, sys: System, action: Action)
    requires 1 <= u.maxPending && Inv(u, sys)
    ensures Inv(u, Next(u, sys, action))
  {
    match action
    case Server(op) =>
      var e := AppSpec.Step(u.maxPending, sys.app, op);
      StepKeeps(u.maxPending, sys.app, op);
      StreamLaws.HearAccounts(u.size, u.limits, sys.stream, e.payloads);
      StreamLaws.HearMeans(u.size, u.limits, sys.stream, e.payloads);
      StreamLaws.HearSaysGoodbye(u.size, u.limits, sys.stream, e.payloads);
    case Writer(step) =>
      StreamLaws.NextAccounts(u.size, u.limits, sys.stream, step);
      StreamLaws.NextSaysGoodbye(sys.stream, step);
      if StreamSpec.Next(sys.stream, step).endReason.None? {
        StreamLaws.NextMeans(u.size, u.limits, sys.stream, step);
      }
  }

  /** The server's own run before the client connects. */
  ghost function History(max: nat, ops: seq<AppSpec.Op>): (app: App)
    requires 1 <= max
    ensures AppSpec.Inv(max, app)
  {
    if |ops| == 0 then BLANK
    else
      var before := History(max, ops[..|ops| - 1]);
      StepKeeps(max, before, ops[|ops| - 1]);
      AppSpec.Step(max, before, ops[|ops| - 1]).app
  }

  /** A client connects after `before`, is sent the sticky warnings, and the run goes on. */
  ghost function Run(u: Setup, before: seq<AppSpec.Op>, progress: LoadPhase, sticky: seq<Payload>, actions: seq<Action>): System
    requires 1 <= u.maxPending && forall p :: p in sticky ==> p.WatchError?
    decreases |actions|, 0
  {
    if |actions| == 0 then
      var app := History(u.maxPending, before);
      System(app, Open(u.size, u.limits, app.rows, progress, sticky))
    else
      RunKeeps(u, before, progress, sticky, actions[..|actions| - 1]);
      Next(u, Run(u, before, progress, sticky, actions[..|actions| - 1]), actions[|actions| - 1])
  }

  /** Everything that holds of server and stream holds over every run. */
  lemma {:induction false} RunKeeps(u: Setup, before: seq<AppSpec.Op>, progress: LoadPhase, sticky: seq<Payload>, actions: seq<Action>)
    requires 1 <= u.maxPending && forall p :: p in sticky ==> p.WatchError?
    ensures Inv(u, Run(u, before, progress, sticky, actions))
    decreases |actions|, 1
  {
    if |actions| == 0 {
      StreamLaws.OpenMeans(u.size, u.limits, History(u.maxPending, before).rows, progress, sticky);
    } else {
      RunKeeps(u, before, progress, sticky, actions[..|actions| - 1]);
      NextKeeps(u, Run(u, before, progress, sticky, actions[..|actions| - 1]), actions[|actions| - 1]);
    }
  }

  /** Client view refinement. In every interleaving, while no end reason is set: what was delivered, the
      write in flight, the rest of the snapshot and the queue fold to exactly the server's rows. */
  lemma ClientViewIsServerRows(u: Setup, before: seq<AppSpec.Op>, progress: LoadPhase, sticky: seq<Payload>, actions: seq<Action>)
    requires 1 <= u.maxPending && forall p :: p in sticky ==> p.WatchError?
    ensures
      var sys := Run(u, before, progress, sticky, actions);
      && (sys.stream.endReason.None? ==> ApplyAll([], StreamLaws.Future(sys.stream)) == sys.app.rows)
  {
    RunKeeps(u, before, progress, sticky, actions);
  }

  /** When nothing is left to write, a client that only applied what it was sent shows, for every event,
      what a fresh look at the correlator would show. */
  lemma CaughtUpClientIsRight(u: Setup, before: seq<AppSpec.Op>, progress: LoadPhase, sticky: seq<Payload>, actions: seq<Action>, i: nat)
    requires 1 <= u.maxPending && forall p :: p in sticky ==> p.WatchError?
    requires
      var s := Run(u, before, progress, sticky, actions).stream;
      s.endReason.None? && s.phase == Live && s.writing == Nothing && |s.queue| == 0
    ensures
      var sys := Run(u, before, progress, sticky, actions);
      var view := ApplyAll([], sys.stream.delivered);
      |view| == |sys.app.events| && (i < |view| ==> ShowsTruth(sys.app, view[i], i))
  {
    RunKeeps(u, before, progress, sticky, actions);
    var sys := Run(u, before, progress, sticky, actions);
    NothingLeft(sys.stream);
    if i < |sys.app.rows| {
      assert Coherent(sys.app.corr, sys.app.rows, i) && Built(sys.app.events, sys.app.rows, i);
      RowsShowPairs(u.maxPending, sys.app, i);
      RowsShowSequence(u.maxPending, sys.app, i);
    }
  }

  /** A row that shows its event and what the correlator says of it now. */
  ghost predicate ShowsTruth(app: App, row: Row, i: nat)
    requires i < |app.events|
  {
    && row.idx == i && row.source == app.events[i]
    && row.status == StatusOf(app.corr, i) && row.latencyMs == LatencyOf(app.corr, i)
    && row.latencyBand == BandFor(LatencyOf(app.corr, i)) && row.pairIdx == PairOf(app.corr, i)
    && ShowsLatency(app.events, row, i) && ShowsSequence(app.events, row, i)
  }

  lemma NothingLeft(s: Stream)
    requires s.phase == Live && s.writing == Nothing && s.queue == []
    ensures StreamLaws.Future(s) == s.delivered
  {
  }

  /** The books over whole runs: the pending counters are the sums over the frame in flight and the queue,
      stay within the limits, and after an end request count only the frame in flight. */
  lemma BooksAreExact(u: Setup, before: seq<AppSpec.Op>, progress: LoadPhase, sticky: seq<Payload>, actions: seq<Action>)
    requires 1 <= u.maxPending && forall p :: p in sticky ==> p.WatchError?
    ensures
      var s := Run(u, before, progress, sticky, actions).stream;
      var flying := StreamLaws.InFlight(s);
      && s.pendingBytes == ByteSum(flying) + ByteSum(s.queue) <= u.limits.maxBytes
      && s.pendingFrames == |flying| + |s.queue| <= u.limits.maxFrames
      && s.pendingRows == RowSum(flying) + RowSum(s.queue) <= u.limits.maxRows
      && (forall f :: f in s.queue ==> f.rowCount == RowCount(f.payload) && f.byteLength == u.size(f.payload))
      && (s.endReason.Some? ==> s.queue == [])
  {
    RunKeeps(u, before, progress, sticky, actions);
    var s := Run(u, before, progress, sticky, actions).stream;
    StreamLaws.SumsConcat(StreamLaws.InFlight(s), s.queue);
    assert forall f :: f in s.queue ==> f in StreamLaws.InFlight(s) + s.queue;
  }

  /** The connection counts as gone exactly if the client went away at some point. */
  lemma {:induction false} AbortedIffDisconnected(
      u: Setup, before: seq<AppSpec.Op>, progress: LoadPhase, sticky: seq<Payload>, actions: seq<Action>)
    requires 1 <= u.maxPending && forall p :: p in sticky ==> p.WatchError?
    ensures Run(u, before, progress, sticky, actions).stream.aborted <==> Writer(Disconnect) in actions
    decreases |actions|
  {
    if |actions| == 0 {
      OpenNotAborted(u, History(u.maxPending, before).rows, progress, sticky);
    } else {
      var n := |actions| - 1;
      AbortedIffDisconnected(u, before, progress, sticky, actions[..n]);
      RunKeeps(u, before, progress, sticky, actions[..n]);
      NextAborts(u, Run(u, before, progress, sticky, actions[..n]), actions[n]);
      assert actions == actions[..n] + [actions[n]];
    }
  }

  lemma OpenNotAborted(u: Setup, rows: seq<Row>, progress: LoadPhase, sticky: seq<Payload>)
    ensures !Open(u.size, u.limits, rows, progress, sticky).aborted
  {
    var s := Stream([], 0, 0, 0, None, false, true, false, Snapshot(SnapshotScript(rows, progress)), Nothing, []);
    StreamLaws.HearKeepsAborted(u.size, u.limits, s, sticky);
    StreamLaws.AdvanceKeepsAborted(Hear(u.size, u.limits, s, sticky));
  }

  lemma NextAborts(u: Setup, sys: System, action: Action)
    requires Inv(u, sys)
    ensures Next(u, sys, action).stream.aborted == (sys.stream.aborted || action == Writer(Disconnect))
  {
    match action
    case Server(op) =>
      StreamLaws.HearKeepsAborted(u.size, u.limits, sys.stream, AppSpec.Step(u.maxPending, sys.app, op).payloads);
    case Writer(step) => StreamLaws.NextAborts(sys.stream, step);
  }

  /** Unless the client went away, a closed stream has ended with the farewell of its reason: after an overflow,
      with the error that asks the client to reconnect. */
  lemma ClosedStreamSaidGoodbye(u: Setup, before: seq<AppSpec.Op>, progress: LoadPhase, sticky: seq<Payload>, actions: seq<Action>)
    requires 1 <= u.maxPending && forall p :: p in sticky ==> p.WatchError?
    ensures
      var s := Run(u, before, progress, sticky, actions).stream;
      s.phase.Closed? ==>
        s.endReason.Some? && (Writer(Disconnect) in actions || match s.endReason.value
                              case Abort => true
                              case Overflow => StreamLaws.EndsWith(s.delivered, [StreamError("stream-overflow"), LogReset, Bye])
                              case Reset => StreamLaws.EndsWith(s.delivered, [LogReset, Bye]))
  {
    RunKeeps(u, before, progress, sticky, actions);
    AbortedIffDisconnected(u, before, progress, sticky, actions);
  }
}
