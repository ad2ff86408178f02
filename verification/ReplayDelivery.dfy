/** One action event at a time: which resource it changes and how, which intent it accepts, and what it leaves alone;
    and how much of a log a replay to a target covers. */
module ReplayDelivery {
  import opened Collections
  import opened Events
  import opened ReplaySpec
  import opened ReplayVerdicts
  import Laws = ReplayLaws

  // ---------- every resource has a last sequence number ----------

  ghost predicate AllNumbered(ctx: Context) {
    ctx.resources.Valid() && forall k :: k in ctx.resources.entries ==> ctx.resources.entries[k].lastServerSeq.Some?
  }

  lemma DoNumbers(codec: Codec, ctx: Context, op: Op)
    requires AllNumbered(ctx)
    ensures AllNumbered(Do(codec, ctx, op))
  {
    if op.Deliver? { DeliverNumbers(codec, ctx, op.envelope, op.idx, op.ts); }
  }

  lemma DeliverNumbers(codec: Codec, ctx: Context, e: Envelope, idx: nat, ts: int)
    requires AllNumbered(ctx)
    ensures AllNumbered(ApplyEnvelope(codec, ctx, e, idx, ts))
  {
    var found := FindResource(ctx, ResourceKey(TargetKind(codec, e), e.channel));
    if found.Some? && found.value in ctx.resources.entries {
      Laws.ReceiveFields(codec, ctx.resources.entries[found.value], e, idx, ts);
    }
  }

  lemma {:induction false} PerformNumbers(codec: Codec, ctx: Context, ops: seq<Op>)
    requires AllNumbered(ctx)
    ensures AllNumbered(Perform(codec, ctx, ops))
    decreases |ops|
  {
    if |ops| > 0 {
      PerformNumbers(codec, ctx, ops[..|ops| - 1]);
      DoNumbers(codec, Perform(codec, ctx, ops[..|ops| - 1]), ops[|ops| - 1]);
    }
  }

  lemma {:induction false} ReachableIsNumbered(codec: Codec, events: seq<Input>, n: nat)
    requires n <= |events|
    ensures AllNumbered(ProcessEvents(codec, EMPTY, events, n))
    decreases n
  {
    if n > 0 {
      ReachableIsNumbered(codec, events, n - 1);
      var before := ProcessEvents(codec, EMPTY, events, n - 1);
      PerformNumbers(codec, before, OpsOf(before.requests, events[n - 1], n - 1));
    }
  }

  // ---------- how sure a resource is after an envelope ----------

  /** What an accepted envelope for it leaves a resource at: unknown after a foreign or unknown action, partial after
      any other complaint, else as it was; complaints carry the index of the event. */
  ghost predicate Marked(codec: Codec, r: Resource, r': Resource, last: int, e: Envelope, idx: nat, ts: int) {
    var kind := TargetKind(codec, e);
    var foreign := Accepted(e, last) && (kind == UnknownKind || kind != r.key.kind);
    var clean := Accepted(e, last) && e.serverSeq == last + 1 && Fits(codec, r, e, ts);
    && r'.confidence == (if foreign then Unknown else if clean then r.confidence else Partial)
    && r'.lastAppliedEventIdx == (if Accepted(e, last) && !foreign then idx else r.lastAppliedEventIdx)
    && r'.baselineEventIdx == r.baselineEventIdx && r'.baselineFromSeq == r.baselineFromSeq
    && |r.diagnostics| <= |r'.diagnostics| && r'.diagnostics[..|r.diagnostics|] == r.diagnostics
    && forall i :: |r.diagnostics| <= i < |r'.diagnostics| ==> r'.diagnostics[i].eventIdx == idx && r'.diagnostics[i].severity == Warning
  }

  lemma ReceiveMarks(codec: Codec, r: Resource, last: int, e: Envelope, idx: nat, ts: int)
    requires r.lastServerSeq == Some(last)
    ensures Marked(codec, r, Receive(codec, r, e, idx, ts), last, e, idx, ts)
  {
    ReceiveConfidence(codec, r, last, e, idx, ts);
    ReceiveNotes(codec, r, last, e, idx, ts);
    NotesCarry(codec, r, last, e, idx, ts);
  }

  lemma ReceiveConfidence(codec: Codec, r: Resource, last: int, e: Envelope, idx: nat, ts: int)
    requires r.lastServerSeq == Some(last)
    ensures
      var r' := Receive(codec, r, e, idx, ts);
      var kind := TargetKind(codec, e);
      var foreign := Accepted(e, last) && (kind == UnknownKind || kind != r.key.kind);
      var clean := Accepted(e, last) && e.serverSeq == last + 1 && Fits(codec, r, e, ts);
      && r'.confidence == (if foreign then Unknown else if clean then r.confidence else Partial)
      && r'.lastAppliedEventIdx == (if Accepted(e, last) && !foreign then idx else r.lastAppliedEventIdx)
      && r'.baselineEventIdx == r.baselineEventIdx && r'.baselineFromSeq == r.baselineFromSeq
  {
  }

  lemma NotesCarry(codec: Codec, r: Resource, last: int, e: Envelope, idx: nat, ts: int)
    ensures var ds := SeqNotes(e, last, idx) + ActionNotes(codec, r, last, e, idx, ts);
      forall i :: 0 <= i < |ds| ==> ds[i].eventIdx == idx && ds[i].severity == Warning
  {
  }

  // ---------- one action event ----------

  lemma ActionPerforms(codec: Codec, events: seq<Input>, n: nat)
    requires n < |events| && events[n].ActionInput? && events[n].envelope.Some?
    ensures ProcessEvents(codec, EMPTY, events, n + 1)
         == ApplyEnvelope(codec, ProcessEvents(codec, EMPTY, events, n), events[n].envelope.value, n, events[n].ts)
  {
    Laws.PerformOne(codec, ProcessEvents(codec, EMPTY, events, n), Deliver(events[n].envelope.value, n, events[n].ts));
  }

  /** After any log, an action event is judged by the resource it reaches, against that resource's last sequence
      number, and leaves every other resource alone. */
  lemma ActionIsJudged(codec: Codec, events: seq<Input>, n: nat, key: ResourceKey)
    requires n < |events| && events[n].ActionInput? && events[n].envelope.Some?
    requires key in ProcessEvents(codec, EMPTY, events, n).resources.entries
    ensures
      var before, after := ProcessEvents(codec, EMPTY, events, n), ProcessEvents(codec, EMPTY, events, n + 1);
      var e, r := events[n].envelope.value, before.resources.entries[key];
      && key in after.resources.entries && r.lastServerSeq.Some?
      && var r' := after.resources.entries[key];
      if Reaches(codec, before, Deliver(e, n, events[n].ts), key) then
        && Judged(codec, r, r', r.lastServerSeq.value, e, events[n].ts)
        && Marked(codec, r, r', r.lastServerSeq.value, e, n, events[n].ts)
      else r' == r
  {
    var before := ProcessEvents(codec, EMPTY, events, n);
    var e := events[n].envelope.value;
    Laws.ReachableIsFiled(codec, events, n);
    ReachableIsNumbered(codec, events, n);
    ActionPerforms(codec, events, n);
    DeliverReaches(codec, before, Deliver(e, n, events[n].ts), key);
    if Reaches(codec, before, Deliver(e, n, events[n].ts), key) {
      var r := before.resources.entries[key];
      ReceiveJudges(codec, r, r.lastServerSeq.value, e, n, events[n].ts);
      ReceiveMarks(codec, r, r.lastServerSeq.value, e, n, events[n].ts);
    }
  }

  /** Without a resource for its kind and channel, or under its channel, an action event only draws a complaint. */
  lemma ActionWithoutBaseline(codec: Codec, events: seq<Input>, n: nat)
    requires n < |events| && events[n].ActionInput? && events[n].envelope.Some?
    requires forall key :: key in ProcessEvents(codec, EMPTY, events, n).resources.entries ==> key.uri != events[n].envelope.value.channel
    ensures
      var before := ProcessEvents(codec, EMPTY, events, n);
      ProcessEvents(codec, EMPTY, events, n + 1)
        == before.(diagnostics := before.diagnostics + [Diagnostic(MissingBaseline, Warning, n)])
  {
    var before := ProcessEvents(codec, EMPTY, events, n);
    Laws.ReachableIsFiled(codec, events, n);
    ActionPerforms(codec, events, n);
    var e := events[n].envelope.value;
    assert FirstWithUri(before.resources.order, e.channel).None?;
  }

  // ---------- which intent an action accepts ----------

  /** The intent awaits acceptance under that number, and none before it does. */
  predicate FirstAwaiting(intents: seq<Intent>, i: nat, clientSeq: Option<int>) {
    && i < |intents| && intents[i].clientSeq == clientSeq && intents[i].acceptedByServerSeq.None?
    && forall j :: 0 <= j < i ==> !(intents[j].clientSeq == clientSeq && intents[j].acceptedByServerSeq.None?)
  }

  lemma {:induction false} AcceptsTheFirst(intents: seq<Intent>, clientSeq: Option<int>, serverSeq: int, i: nat)
    requires i < |intents|
    ensures
      var after := AcceptFirst(intents, clientSeq, serverSeq);
      && |after| == |intents|
      && after[i] == if FirstAwaiting(intents, i, clientSeq) then intents[i].(acceptedByServerSeq := Some(serverSeq)) else intents[i]
    decreases |intents|
  {
    var head := intents[0];
    if !(head.clientSeq == clientSeq && head.acceptedByServerSeq.None?) {
      var rest := intents[1..];
      if i > 0 {
        AcceptsTheFirst(rest, clientSeq, serverSeq, i - 1);
        FirstInRest(head, rest, i, clientSeq);
        assert [head] + rest == intents;
      } else {
        AcceptKeepsLength(rest, clientSeq, serverSeq);
      }
    }
  }

  lemma {:induction false} AcceptKeepsLength(intents: seq<Intent>, clientSeq: Option<int>, serverSeq: int)
    ensures |AcceptFirst(intents, clientSeq, serverSeq)| == |intents|
    decreases |intents|
  {
    if |intents| > 0 { AcceptKeepsLength(intents[1..], clientSeq, serverSeq); }
  }

  lemma FirstInRest(head: Intent, rest: seq<Intent>, i: nat, clientSeq: Option<int>)
    requires 0 < i <= |rest| && !(head.clientSeq == clientSeq && head.acceptedByServerSeq.None?)
    ensures FirstAwaiting([head] + rest, i, clientSeq) <==> FirstAwaiting(rest, i - 1, clientSeq)
  {
    var all := [head] + rest;
    if FirstAwaiting(rest, i - 1, clientSeq) {
      forall j | 0 <= j < i ensures !(all[j].clientSeq == clientSeq && all[j].acceptedByServerSeq.None?) {
        if j > 0 { assert all[j] == rest[j - 1]; }
      }
    }
    if FirstAwaiting(all, i, clientSeq) {
      forall j | 0 <= j < i - 1 ensures !(rest[j].clientSeq == clientSeq && rest[j].acceptedByServerSeq.None?) {
        assert all[j + 1] == rest[j];
      }
    }
  }

  /** After any log, an action event accepts an intent exactly if the event reaches a resource and is accepted there,
      and the intent is the oldest one of its client sequence number that still waits; it then names the event's
      sequence number. All else about the intents stays. */
  lemma IntentAcceptedIff(codec: Codec, events: seq<Input>, n: nat, i: nat)
    requires n < |events| && events[n].ActionInput? && events[n].envelope.Some?
    requires i < |ProcessEvents(codec, EMPTY, events, n).intents|
    ensures
      var before, after := ProcessEvents(codec, EMPTY, events, n), ProcessEvents(codec, EMPTY, events, n + 1);
      var e := events[n].envelope.value;
      && |after.intents| == |before.intents|
      && after.intents[i]
         == (if e.clientSeq.Some? && FirstAwaiting(before.intents, i, e.clientSeq) && TakenBySomeone(codec, before, e, n, events[n].ts)
             then before.intents[i].(acceptedByServerSeq := Some(e.serverSeq)) else before.intents[i])
  {
    var before := ProcessEvents(codec, EMPTY, events, n);
    var e := events[n].envelope.value;
    Laws.ReachableIsFiled(codec, events, n);
    ReachableIsNumbered(codec, events, n);
    ActionPerforms(codec, events, n);
    AcceptsTheFirst(before.intents, e.clientSeq, e.serverSeq, i);
    TakenIff(codec, before, e, n, events[n].ts);
  }

  /** Some resource is reached, and the envelope is neither rejected nor old news to it. */
  ghost predicate TakenBySomeone(codec: Codec, ctx: Context, e: Envelope, idx: nat, ts: int) {
    exists key :: key in ctx.resources.entries && Reaches(codec, ctx, Deliver(e, idx, ts), key)
      && ctx.resources.entries[key].lastServerSeq.Some? && Accepted(e, ctx.resources.entries[key].lastServerSeq.value)
  }

  lemma TakenIff(codec: Codec, ctx: Context, e: Envelope, idx: nat, ts: int)
    requires AllNumbered(ctx) && Laws.Filed(ctx)
    ensures
      var found := FindResource(ctx, ResourceKey(TargetKind(codec, e), e.channel));
      TakenBySomeone(codec, ctx, e, idx, ts)
      <==> found.Some? && found.value in ctx.resources.entries && Applies(ctx.resources.entries[found.value], e)
  {
    var found := FindResource(ctx, ResourceKey(TargetKind(codec, e), e.channel));
    if found.Some? && found.value in ctx.resources.entries {
      assert Reaches(codec, ctx, Deliver(e, idx, ts), found.value);
    }
  }

  // ---------- how far a replay goes ----------

  /** A result shows a context: its resources in the order in which they were first installed, its intents, and after
      some diagnostics its own. */
  predicate Shows(r: ReplayResult, ctx: Context, before: seq<Diagnostic>) {
    && r.intents == ctx.intents && r.diagnostics == before + ctx.diagnostics
    && |r.resources| == |ctx.resources.order|
    && forall i :: 0 <= i < |r.resources| ==> ctx.resources.Get(ctx.resources.order[i]) == Some(r.resources[i])
  }

  lemma {:induction false} ValuesAre(resources: OMap<ResourceKey, Resource>, order: seq<ResourceKey>, i: nat)
    requires (forall k :: k in order ==> k in resources.entries) && i < |order|
    ensures |Values(resources, order)| == |order| && Values(resources, order)[i] == resources.entries[order[i]]
    decreases |order|
  {
    if i > 0 {
      ValuesAre(resources, order[1..], i - 1);
    } else if |order| > 1 {
      ValuesAre(resources, order[1..], 0);
    }
  }

  lemma FreezeShows(ctx: Context, t: int)
    requires ctx.resources.Valid()
    ensures Shows(Freeze(ctx, t), ctx, [])
  {
    var order := ctx.resources.order;
    forall i | 0 <= i < |order| ensures |Values(ctx.resources, order)| == |order| && ctx.resources.Get(order[i]) == Some(Values(ctx.resources, order)[i]) {
      ValuesAre(ctx.resources, order, i);
    }
    assert [] + ctx.diagnostics == ctx.diagnostics;
  }

  /** The same context with a diagnostic in front. */
  function Preceded(d: Diagnostic, ctx: Context): Context {
    ctx.(diagnostics := [d] + ctx.diagnostics)
  }

  lemma DoPreceded(codec: Codec, d: Diagnostic, ctx: Context, op: Op)
    ensures Do(codec, Preceded(d, ctx), op) == Preceded(d, Do(codec, ctx, op))
  {
    match op
    case Note(n) => assert ([d] + ctx.diagnostics) + [n] == [d] + (ctx.diagnostics + [n]);
    case Install(s, idx) => InstallPreceded(codec, d, ctx, s, idx);
    case Deliver(e, idx, ts) => DeliverPreceded(codec, d, ctx, e, idx, ts);
    case _ =>
  }

  lemma InstallPreceded(codec: Codec, d: Diagnostic, ctx: Context, s: Snapshot, idx: nat)
    ensures InstallSnapshot(codec, Preceded(d, ctx), s, idx) == Preceded(d, InstallSnapshot(codec, ctx, s, idx))
  {
    var n := Diagnostic(UnknownSnapshot, Warning, idx);
    assert ([d] + ctx.diagnostics) + [n] == [d] + (ctx.diagnostics + [n]);
  }

  lemma DeliverPreceded(codec: Codec, d: Diagnostic, ctx: Context, e: Envelope, idx: nat, ts: int)
    ensures ApplyEnvelope(codec, Preceded(d, ctx), e, idx, ts) == Preceded(d, ApplyEnvelope(codec, ctx, e, idx, ts))
  {
    var found := FindResource(ctx, ResourceKey(TargetKind(codec, e), e.channel));
    if found.None? || found.value !in ctx.resources.entries {
      Regroup(d, ctx.diagnostics, [Diagnostic(MissingBaseline, Warning, idx)]);
    } else {
      var r := ctx.resources.entries[found.value];
      Regroup(d, ctx.diagnostics, NewDiagnostics(r, Receive(codec, r, e, idx, ts)));
    }
  }

  lemma Regroup(d: Diagnostic, ds: seq<Diagnostic>, more: seq<Diagnostic>)
    ensures ([d] + ds) + more == [d] + (ds + more)
  {
  }

  lemma {:induction false} PerformPreceded(codec: Codec, d: Diagnostic, ctx: Context, ops: seq<Op>)
    ensures Perform(codec, Preceded(d, ctx), ops) == Preceded(d, Perform(codec, ctx, ops))
    decreases |ops|
  {
    if |ops| > 0 {
      PerformPreceded(codec, d, ctx, ops[..|ops| - 1]);
      DoPreceded(codec, d, Perform(codec, ctx, ops[..|ops| - 1]), ops[|ops| - 1]);
    }
  }

  lemma {:induction false} PrecededAlong(codec: Codec, d: Diagnostic, events: seq<Input>, n: nat)
    requires n <= |events|
    ensures ProcessEvents(codec, Preceded(d, EMPTY), events, n) == Preceded(d, ProcessEvents(codec, EMPTY, events, n))
    decreases n
  {
    if n > 0 {
      PrecededAlong(codec, d, events, n - 1);
      EventPreceded(codec, d, ProcessEvents(codec, EMPTY, events, n - 1), events[n - 1], n - 1);
    }
  }

  lemma EventPreceded(codec: Codec, d: Diagnostic, ctx: Context, ev: Input, idx: nat)
    ensures ProcessEvent(codec, Preceded(d, ctx), ev, idx) == Preceded(d, ProcessEvent(codec, ctx, ev, idx))
  {
    PerformPreceded(codec, d, ctx, OpsOf(ctx.requests, ev, idx));
  }

  /** A replay to an event of the log shows what the log up to and with that event leads to; a target before the log
      shows nothing, one after it the whole log, and both say first that there is no such event. */
  lemma TargetIsReached(codec: Codec, events: seq<Input>, t: int)
    ensures
      var r, n := ReplayToIndex(codec, events, t), |events|;
      && r.targetIndex == t
      && if 0 <= t < n then Shows(r, ProcessEvents(codec, EMPTY, events, t + 1), [])
         else
           Shows(r, ProcessEvents(codec, EMPTY, events, if t < 0 then 0 else n),
                 [Diagnostic(InvalidTargetIndex, Warning, if t < 0 then 0 else t)])
  {
    var n := |events|;
    if 0 <= t < n {
      Laws.ReachableIsFiled(codec, events, t + 1);
      FreezeShows(ProcessEvents(codec, EMPTY, events, t + 1), t);
    } else {
      var reach := if t < 0 then 0 else n;
      var d := Diagnostic(InvalidTargetIndex, Warning, if t < 0 then 0 else t);
      Laws.ReachableIsFiled(codec, events, reach);
      PrecededAlong(codec, d, events, reach);
      assert StartAt(n, t) == Preceded(d, EMPTY);
      FreezeShows(Preceded(d, ProcessEvents(codec, EMPTY, events, reach)), t);
    }
  }
}
