/** Server and stream over whole runs: the client is told everything, in order, and catches up. */
module LiveDelivery {
  import opened Collections
  import opened Frames
  import opened AppSpec
  import opened StreamSpec
  import opened StreamDelivery
  import opened StreamProgress
  import opened LiveSystem
  import StreamLaws

  /** Everything the listener of the stream is given: the sticky warnings, then what the server emits. */
  ghost function Emitted(u: Setup, before: seq<AppSpec.Op>, progress: LoadPhase, sticky: seq<Payload>, actions: seq<Action>): seq<Payload>
    requires 1 <= u.maxPending && forall p :: p in sticky ==> p.WatchError?
    decreases |actions|
  {
    if |actions| == 0 then sticky
    else
      var front := actions[..|actions| - 1];
      RunKeeps(u, before, progress, sticky, front);
      Emitted(u, before, progress, sticky, front) + EmittedBy(u, Run(u, before, progress, sticky, front), actions[|actions| - 1])
  }

  ghost function EmittedBy(u: Setup, sys: System, action: Action): seq<Payload>
    requires LiveSystem.Inv(u, sys)
  {
    match action
    case Server(op) => AppSpec.Step(u.maxPending, sys.app, op).payloads
    case Writer(_) => []
  }

  lemma ServerEmitsNothingOwn(u: Setup, sys: System, op: AppSpec.Op)
    requires LiveSystem.Inv(u, sys)
    ensures forall p :: p in AppSpec.Step(u.maxPending, sys.app, op).payloads ==> !IsOwn(p)
  {
  }

  lemma {:induction false} ToldAll(payloads: seq<Payload>)
    requires forall i :: 0 <= i < |payloads| ==> !IsOwn(payloads[i])
    ensures Told(payloads) == payloads
    decreases |payloads|
  {
    if |payloads| > 0 { ToldAll(payloads[..|payloads| - 1]); }
  }

  lemma ScriptIsNotOwn(rows: seq<Row>, progress: LoadPhase)
    ensures Told(SnapshotScript(rows, progress)) == SnapshotScript(rows, progress)
  {
    var chunks := Chunks(rows, 0);
    ChunksAre(rows, 0, chunks);
    assert forall i :: 0 <= i < |chunks| ==> !IsOwn(chunks[i]);
    ToldAll(SnapshotScript(rows, progress));
  }

  // ---------- told everything ----------

  lemma OpenTells(u: Setup, rows: seq<Row>, progress: LoadPhase, sticky: seq<Payload>)
    returns (past: seq<Payload>, groups: seq<seq<Payload>>)
    requires forall p :: p in sticky ==> p.WatchError?
    requires Open(u.size, u.limits, rows, progress, sticky).endReason.None?
    ensures Tells(Open(u.size, u.limits, rows, progress, sticky), SnapshotScript(rows, progress), past, groups) && Flatten(groups) == sticky
  {
    var script := SnapshotScript(rows, progress);
    var s0 := Stream([], 0, 0, 0, None, false, true, false, Snapshot(script), Nothing, []);
    var s1 := Hear(u.size, u.limits, s0, sticky);
    StreamLaws.AdvanceEnds(s1);
    StreamLaws.HearKeepsWriter(u.size, u.limits, s0, sticky);
    FreshTells(s0, script, rows, progress);
    groups := HearTells(u.size, u.limits, s0, sticky, script, [], []);
    past := AdvanceTells(s1, script, [], groups);
  }

  lemma FreshTells(s: Stream, script: seq<Payload>, rows: seq<Row>, progress: LoadPhase)
    requires script == SnapshotScript(rows, progress) && |s.queue| == 0
    requires s.phase == Snapshot(script) && s.writing == Nothing && |s.delivered| == 0
    ensures Tells(s, script, [], []) && Flatten([]) == []
  {
    ScriptIsNotOwn(rows, progress);
    assert s.delivered + ([] + script) == script && script + [] == script;
  }

  /** In every interleaving with no end reason: what the client has got and what is ahead of the queue is the
      snapshot and then some payloads; those and the queue carry everything emitted, each once, in order, as it
      was or merged: appends and patches in pairs, progress notices by the last. Pings and backlog notices are
      the writer's own. */
  lemma {:induction false} ClientIsToldEverything(
      u: Setup, before: seq<AppSpec.Op>, progress: LoadPhase, sticky: seq<Payload>, actions: seq<Action>)
    returns (past: seq<Payload>, groups: seq<seq<Payload>>)
    requires 1 <= u.maxPending && forall p :: p in sticky ==> p.WatchError?
    requires Run(u, before, progress, sticky, actions).stream.endReason.None?
    ensures
      var s := Run(u, before, progress, sticky, actions).stream;
      && Tells(s, SnapshotScript(History(u.maxPending, before).rows, progress), past, groups)
      && Flatten(groups) == Emitted(u, before, progress, sticky, actions)
    decreases |actions|
  {
    var script := SnapshotScript(History(u.maxPending, before).rows, progress);
    if |actions| == 0 {
      past, groups := OpenTells(u, History(u.maxPending, before).rows, progress, sticky);
    } else {
      var front, last := actions[..|actions| - 1], actions[|actions| - 1];
      var sys := Run(u, before, progress, sticky, front);
      RunKeeps(u, before, progress, sticky, front);
      EndStays(u, sys, last);
      past, groups := ClientIsToldEverything(u, before, progress, sticky, front);
      past, groups := ActionTells(u, sys, last, script, past, groups);
    }
  }

  lemma ActionTells(u: Setup, sys: System, action: Action, script: seq<Payload>, past: seq<Payload>, groups: seq<seq<Payload>>)
    returns (past': seq<Payload>, groups': seq<seq<Payload>>)
    requires LiveSystem.Inv(u, sys) && sys.stream.endReason.None? && Tells(sys.stream, script, past, groups)
    requires LiveSystem.Next(u, sys, action).stream.endReason.None?
    ensures Tells(LiveSystem.Next(u, sys, action).stream, script, past', groups')
    ensures Flatten(groups') == Flatten(groups) + EmittedBy(u, sys, action)
  {
    past', groups' := past, groups;
    match action
    case Server(op) =>
      ServerEmitsNothingOwn(u, sys, op);
      groups' := HearTells(u.size, u.limits, sys.stream, AppSpec.Step(u.maxPending, sys.app, op).payloads, script, past, groups);
    case Writer(step) =>
      past' := NextTells(u.size, u.limits, sys.stream, step, script, past, groups);
      assert Flatten(groups) + [] == Flatten(groups);
  }

  /** The first end reason stays. */
  lemma EndStays(u: Setup, sys: System, action: Action)
    requires LiveSystem.Inv(u, sys)
    ensures sys.stream.endReason.Some? ==> LiveSystem.Next(u, sys, action).stream.endReason == sys.stream.endReason
  {
    match action
    case Server(op) => StillOpen(u.size, u.limits, sys.stream, AppSpec.Step(u.maxPending, sys.app, op).payloads);
    case Writer(step) => WriterKeepsEnd(sys.stream, step);
  }

  lemma WriterKeepsEnd(s: Stream, step: StreamSpec.Step)
    ensures s.endReason.Some? ==> StreamSpec.Next(s, step).endReason == s.endReason
  {
    if step.Wrote? { StreamLaws.AdvanceEnds(Complete(s)); }
  }

  // ---------- merged as far as allowed, never stuck ----------

  lemma {:induction false} HearIsCompact(size: Size, limits: Limits, s: Stream, payloads: seq<Payload>)
    requires StreamLaws.Accounted(size, limits, s) && Compact(s.queue)
    ensures Compact(Hear(size, limits, s, payloads).queue)
    decreases |payloads|
  {
    if |payloads| > 0 {
      StreamLaws.EnqueueAccounts(size, limits, s, payloads[0]);
      if s.endReason.None? { OverflowsIff(size, limits, s, payloads[0]); }
      AddedIsCompact(size, s.queue, payloads[0]);
      HearIsCompact(size, limits, if s.attached then Enqueue(size, limits, s, payloads[0]) else s, payloads[1..]);
    }
  }

  /** The writer only takes frames off the front, or drops the queue. */
  lemma NextShortens(s: Stream, step: StreamSpec.Step)
    ensures Shortened(s.queue, StreamSpec.Next(s, step).queue)
  {
    if step.Wrote? { AdvanceShortens(Complete(s)); }
  }

  predicate Shortened(queue: seq<Frame>, q: seq<Frame>) {
    q == queue || |q| == 0 || (|queue| > 0 && q == queue[1..])
  }

  lemma AdvanceShortens(s: Stream)
    ensures Shortened(s.queue, Advance(s).queue)
  {
    FarewellShortens(s);
    match s.phase
    case Snapshot(_) => LiveShortens(s.(phase := Live));
    case Live => LiveShortens(s);
    case _ =>
  }

  lemma LiveShortens(s: Stream)
    ensures Shortened(s.queue, AdvanceLive(s).queue)
  {
    FarewellShortens(s);
  }

  lemma FarewellShortens(s: Stream)
    ensures Farewell(s).queue == s.queue || |Farewell(s).queue| == 0
    ensures AdvanceEnding(s).queue == s.queue || |AdvanceEnding(s).queue| == 0
  {
  }

  /** In every reachable state neighbours in the queue are merged as far as allowed, and the writer is writing,
      waiting for work, or done. */
  lemma {:induction false} QueueIsMergedAndWriterPoised(
      u: Setup, before: seq<AppSpec.Op>, progress: LoadPhase, sticky: seq<Payload>, actions: seq<Action>)
    requires 1 <= u.maxPending && forall p :: p in sticky ==> p.WatchError?
    ensures var s := Run(u, before, progress, sticky, actions).stream; Compact(s.queue) && Poised(s)
    decreases |actions|
  {
    if |actions| == 0 {
      OpenIsFine(u, History(u.maxPending, before).rows, progress, sticky);
    } else {
      var front := actions[..|actions| - 1];
      QueueIsMergedAndWriterPoised(u, before, progress, sticky, front);
      RunKeeps(u, before, progress, sticky, front);
      ActionIsFine(u, Run(u, before, progress, sticky, front), actions[|actions| - 1]);
    }
  }

  lemma OpenIsFine(u: Setup, rows: seq<Row>, progress: LoadPhase, sticky: seq<Payload>)
    ensures var s := Open(u.size, u.limits, rows, progress, sticky); Compact(s.queue) && Poised(s)
  {
    StartIsFine(u.size, u.limits, Stream([], 0, 0, 0, None, false, true, false, Snapshot(SnapshotScript(rows, progress)), Nothing, []), sticky);
  }

  lemma StartIsFine(size: Size, limits: Limits, s: Stream, sticky: seq<Payload>)
    requires StreamLaws.Accounted(size, limits, s) && |s.queue| == 0 && s.writing == Nothing
    ensures var t := Advance(Hear(size, limits, s, sticky)); Compact(t.queue) && Poised(t)
  {
    var heard := Hear(size, limits, s, sticky);
    HearIsCompact(size, limits, s, sticky);
    StreamLaws.HearKeepsWriter(size, limits, s, sticky);
    AdvanceIsPoised(heard);
    AdvanceShortens(heard);
    CompactShorter(heard.queue, Advance(heard).queue);
  }

  lemma CompactShorter(queue: seq<Frame>, q: seq<Frame>)
    requires Compact(queue) && Shortened(queue, q)
    ensures Compact(q)
  {
  }

  lemma ActionIsFine(u: Setup, sys: System, action: Action)
    requires LiveSystem.Inv(u, sys) && Compact(sys.stream.queue) && Poised(sys.stream)
    ensures var s := LiveSystem.Next(u, sys, action).stream; Compact(s.queue) && Poised(s)
  {
    match action
    case Server(op) =>
      var payloads := AppSpec.Step(u.maxPending, sys.app, op).payloads;
      HearIsCompact(u.size, u.limits, sys.stream, payloads);
      HearIsPoised(u.size, u.limits, sys.stream, payloads);
    case Writer(step) =>
      NextShortens(sys.stream, step);
      CompactShorter(sys.stream.queue, StreamSpec.Next(sys.stream, step).queue);
      NextIsPoised(sys.stream, step);
  }

  // ---------- catching up ----------

  /** The writer wakes up and `k` writes end; the server does nothing. */
  function Draining(k: nat): seq<Action>
    decreases k
  {
    if k == 0 then [Writer(Woke)] else Draining(k - 1) + [Writer(Wrote)]
  }

  lemma RunSnoc(u: Setup, before: seq<AppSpec.Op>, progress: LoadPhase, sticky: seq<Payload>, actions: seq<Action>, last: Action)
    requires 1 <= u.maxPending && forall p :: p in sticky ==> p.WatchError?
    ensures LiveSystem.Inv(u, Run(u, before, progress, sticky, actions))
    ensures Run(u, before, progress, sticky, actions + [last]) == LiveSystem.Next(u, Run(u, before, progress, sticky, actions), last)
  {
    RunKeeps(u, before, progress, sticky, actions);
    assert (actions + [last])[..|actions|] == actions;
  }

  /** However the system got there, the end of a write is a step of the writer. */
  ghost predicate WritesAreSteps(run: seq<Action> -> System) {
    forall front {:trigger run(front + [Writer(Wrote)])} ::
      run(front + [Writer(Wrote)]) == System(run(front).app, StreamSpec.Next(run(front).stream, Wrote))
  }

  /** Once the writer has woken up, one write after the other ends. */
  lemma {:induction false} WritesEnd(run: seq<Action> -> System, actions: seq<Action>, k: nat, woken: System)
    requires WritesAreSteps(run) && run(actions + Draining(0)) == woken
    ensures run(actions + Draining(k)) == System(woken.app, Writes(woken.stream, k))
    decreases k
  {
    if k > 0 {
      WritesEnd(run, actions, k - 1, woken);
      DrainingMore(actions, k);
    }
  }

  lemma DrainingMore(actions: seq<Action>, k: nat)
    requires k > 0
    ensures actions + Draining(k) == (actions + Draining(k - 1)) + [Writer(Wrote)]
  {
  }

  lemma DrainingWrites(u: Setup, before: seq<AppSpec.Op>, progress: LoadPhase, sticky: seq<Payload>, actions: seq<Action>, k: nat)
    requires 1 <= u.maxPending && forall p :: p in sticky ==> p.WatchError?
    ensures
      var sys := Run(u, before, progress, sticky, actions);
      Run(u, before, progress, sticky, actions + Draining(k)) == System(sys.app, Writes(StreamSpec.Next(sys.stream, Woke), k))
  {
    var run := (all: seq<Action>) => Run(u, before, progress, sticky, all);
    forall front ensures run(front + [Writer(Wrote)]) == System(run(front).app, StreamSpec.Next(run(front).stream, Wrote)) {
      RunSnoc(u, before, progress, sticky, front, Writer(Wrote));
    }
    RunSnoc(u, before, progress, sticky, actions, Writer(Woke));
    WritesEnd(run, actions, k, LiveSystem.Next(u, run(actions), Writer(Woke)));
  }

  /** Progress over runs: from every reachable state with no end reason the client catches up after exactly the
      writes that are left, and then what it was sent folds to the server's rows. */
  lemma ClientCatchesUp(u: Setup, before: seq<AppSpec.Op>, progress: LoadPhase, sticky: seq<Payload>, actions: seq<Action>, k: nat)
    requires 1 <= u.maxPending && forall p :: p in sticky ==> p.WatchError?
    requires Run(u, before, progress, sticky, actions).stream.endReason.None?
    ensures
      var sys := Run(u, before, progress, sticky, actions);
      var t := Run(u, before, progress, sticky, actions + Draining(k));
      && t.app == sys.app && t.stream.endReason.None?
      && (Quiet(t.stream) <==> k >= Left(sys.stream))
      && (Quiet(t.stream) ==> ApplyAll([], t.stream.delivered) == sys.app.rows)
  {
    RunKeeps(u, before, progress, sticky, actions);
    QueueIsMergedAndWriterPoised(u, before, progress, sticky, actions);
    var s := Run(u, before, progress, sticky, actions).stream;
    DrainingWrites(u, before, progress, sticky, actions, k);
    StreamDrains(s, k);
    var t := Run(u, before, progress, sticky, actions + Draining(k));
    RunKeeps(u, before, progress, sticky, actions + Draining(k));
    if Quiet(t.stream) { NothingLeft(t.stream); }
  }

  /** An ended stream closes after at most the writes that are left. */
  lemma EndedStreamCloses(u: Setup, before: seq<AppSpec.Op>, progress: LoadPhase, sticky: seq<Payload>, actions: seq<Action>, k: nat)
    requires 1 <= u.maxPending && forall p :: p in sticky ==> p.WatchError?
    requires Run(u, before, progress, sticky, actions).stream.endReason.Some?
    requires k >= LeftToClose(Run(u, before, progress, sticky, actions).stream)
    ensures Run(u, before, progress, sticky, actions + Draining(k)).stream.phase.Closed?
  {
    RunKeeps(u, before, progress, sticky, actions);
    QueueIsMergedAndWriterPoised(u, before, progress, sticky, actions);
    DrainingWrites(u, before, progress, sticky, actions, k);
    StreamCloses(Run(u, before, progress, sticky, actions).stream, k);
  }
}
