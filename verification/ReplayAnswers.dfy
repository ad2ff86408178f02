/** What each kind of event adds to a replay, told in events: which answers install what, which intents are recorded,
    which complaints are made. */
module ReplayAnswers {
  import opened Collections
  import opened Events
  import opened ReplaySpec
  import Laws = ReplayLaws
  import Reports = ReplayReports

  // ---------- a log, context by context ----------

  /** One event leads from one context to the next. */
  predicate Leads(codec: Codec, before: Context, after: Context, ev: Input, idx: nat) {
    after == ProcessEvent(codec, before, ev, idx)
  }

  /** The contexts of a log, one before each event and one at the end. */
  ghost predicate Along(codec: Codec, start: Context, events: seq<Input>, ctxs: seq<Context>) {
    && 0 < |ctxs| <= |events| + 1 && ctxs[0] == start
    && forall i :: 0 <= i && i + 1 < |ctxs| ==> Leads(codec, ctxs[i], ctxs[i + 1], events[i], i)
  }

  lemma {:induction false} ContextsOf(codec: Codec, start: Context, events: seq<Input>, n: nat) returns (ctxs: seq<Context>)
    requires n <= |events|
    ensures Along(codec, start, events, ctxs) && |ctxs| == n + 1
    ensures ctxs[n] == ProcessEvents(codec, start, events, n)
    decreases n
  {
    if n == 0 {
      ctxs := [start];
    } else {
      ctxs := ContextsOf(codec, start, events, n - 1);
      AlongMore(codec, start, events, ctxs, ProcessEvents(codec, start, events, n));
      ctxs := ctxs + [ProcessEvents(codec, start, events, n)];
    }
  }

  lemma AlongMore(codec: Codec, start: Context, events: seq<Input>, ctxs: seq<Context>, next: Context)
    requires Along(codec, start, events, ctxs) && |ctxs| <= |events|
    requires Leads(codec, ctxs[|ctxs| - 1], next, events[|ctxs| - 1], |ctxs| - 1)
    ensures Along(codec, start, events, ctxs + [next])
  {
  }

  // ---------- which request an answer belongs to ----------

  /** Nothing is remembered or recorded, and all that is noted is what is malformed or missing. */
  ghost predicate OnlyEffects(ops: seq<Op>) {
    forall i :: 0 <= i < |ops| ==> IsEffect(ops[i])
  }

  predicate IsEffect(op: Op) {
    match op
    case Note(d) => d.code == MalformedEnvelope || d.code == ReconnectMissingResource
    case Install(_, _) => true
    case Deliver(_, _, _) => true
    case _ => false
  }

  lemma {:induction false} PerformKeepsRequests(codec: Codec, ctx: Context, ops: seq<Op>)
    requires forall i :: 0 <= i < |ops| ==> IsEffect(ops[i]) || ops[i].Record? || ops[i].Note?
    ensures Perform(codec, ctx, ops).requests == ctx.requests
    decreases |ops|
  {
    if |ops| > 0 { PerformKeepsRequests(codec, ctx, ops[..|ops| - 1]); }
  }

  lemma BothEffects(a: seq<Op>, b: seq<Op>)
    requires OnlyEffects(a) && OnlyEffects(b)
    ensures OnlyEffects(a + b)
  {
  }

  lemma {:induction false} InstallsAreEffects(snapshots: seq<Option<Snapshot>>, idx: nat)
    ensures OnlyEffects(InstallOps(snapshots, idx))
    decreases |snapshots|
  {
    if |snapshots| > 0 {
      InstallsAreEffects(snapshots[1..], idx);
      BothEffects([InstallOp(snapshots[0], idx)], InstallOps(snapshots[1..], idx));
    }
  }

  lemma {:induction false} DeliveriesAreEffects(actions: seq<Option<Envelope>>, idx: nat, ts: int)
    ensures OnlyEffects(DeliverOps(actions, idx, ts))
    decreases |actions|
  {
    if |actions| > 0 {
      DeliveriesAreEffects(actions[1..], idx, ts);
      BothEffects([DeliverOp(actions[0], idx, ts)], DeliverOps(actions[1..], idx, ts));
    }
  }

  lemma {:induction false} MissingIsEffects(n: nat, idx: nat)
    ensures OnlyEffects(MissingOps(n, idx))
    decreases n
  {
    if n > 0 {
      MissingIsEffects(n - 1, idx);
      BothEffects([Note(Diagnostic(ReconnectMissingResource, Warning, idx))], MissingOps(n - 1, idx));
    }
  }

  lemma ReconnectIsEffects(r: Reconnect, idx: nat, ts: int)
    ensures OnlyEffects(ReconnectOps(r, idx, ts))
  {
    match r
    case MalformedReconnect =>
    case ReconnectSnapshots(snapshots) => if snapshots.Some? { InstallsAreEffects(snapshots.value, idx); }
    case ReconnectReplay(missing, actions) =>
      MissingIsEffects(missing, idx);
      if actions.Some? { DeliveriesAreEffects(actions.value, idx, ts); }
      BothEffects(MissingOps(missing, idx), if actions.Some? then DeliverOps(actions.value, idx, ts) else [Malformed(idx)]);
  }

  /** Only a request is remembered, only an intent recorded. */
  lemma OthersAreEffects(requests: map<Key, RequestContext>, ev: Input, idx: nat)
    requires !ev.RequestInput? && !ev.IntentInput? && !ev.Unparsed?
    ensures OnlyEffects(OpsOf(requests, ev, idx))
  {
    if ev.ResponseInput? && ev.key in requests && ev.result.Some? {
      var result := ev.result.value;
      ReconnectIsEffects(result.reconnect, idx, ev.ts);
      if result.snapshots.Some? { InstallsAreEffects(result.snapshots.value, idx); }
    }
  }

  lemma RequestsAfter(codec: Codec, ctx: Context, ev: Input, idx: nat)
    ensures ProcessEvent(codec, ctx, ev, idx).requests
         == if ev.RequestInput? then ctx.requests[ev.key := RequestContext(ev.method_, idx)] else ctx.requests
  {
    if ev.RequestInput? {
      Laws.PerformOne(codec, ctx, Remember(ev.key, RequestContext(ev.method_, idx)));
    } else {
      if !ev.IntentInput? && !ev.Unparsed? { OthersAreEffects(ctx.requests, ev, idx); }
      PerformKeepsRequests(codec, ctx, OpsOf(ctx.requests, ev, idx));
    }
  }

  /** Before event `j`, event `i` is the last request of key `k`, and has that method. */
  ghost predicate AskedAt(events: seq<Input>, i: nat, j: nat, k: Key, method_: Option<string>) {
    && i < j <= |events| && events[i] == RequestInput(k, method_)
    && forall m :: i < m < j ==> !(events[m].RequestInput? && events[m].key == k)
  }

  lemma {:induction false} LastRequestAlong(
      codec: Codec, start: Context, events: seq<Input>, ctxs: seq<Context>, i: nat, j: nat, k: Key, method_: Option<string>)
    requires Along(codec, start, events, ctxs) && AskedAt(events, i, j, k, method_) && j < |ctxs|
    ensures k in ctxs[j].requests && ctxs[j].requests[k] == RequestContext(method_, i)
    decreases j
  {
    assert Leads(codec, ctxs[j - 1], ctxs[j], events[j - 1], j - 1);
    RequestsAfter(codec, ctxs[j - 1], events[j - 1], j - 1);
    if i < j - 1 { LastRequestAlong(codec, start, events, ctxs, i, j - 1, k, method_); }
  }

  /** What is remembered of a key is its last request. */
  lemma LastRequestCounts(codec: Codec, start: Context, events: seq<Input>, i: nat, j: nat, k: Key, method_: Option<string>)
    requires AskedAt(events, i, j, k, method_)
    ensures
      var requests := ProcessEvents(codec, start, events, j).requests;
      k in requests && requests[k] == RequestContext(method_, i)
  {
    var ctxs := ContextsOf(codec, start, events, j);
    LastRequestAlong(codec, start, events, ctxs, i, j, k, method_);
  }

  // ---------- what is installed ----------

  function KeyOfSnapshot(codec: Codec, s: Snapshot): ResourceKey {
    ResourceKey(SnapshotKind(codec, s), s.resource)
  }

  /** The resource of the snapshot is exactly its baseline, taken at event `idx`. */
  predicate HasBaseline(codec: Codec, ctx: Context, s: Snapshot, idx: nat) {
    var key := KeyOfSnapshot(codec, s);
    && key in ctx.resources.entries
    && var r := ctx.resources.entries[key];
       && r.key == key && r.state == s.state && r.baselineFromSeq == s.fromSeq && r.lastServerSeq == Some(s.fromSeq)
       && r.baselineEventIdx == idx && r.lastAppliedEventIdx == idx
       && (r.confidence == Complete <==> key.kind != UnknownKind)
  }

  /** The operation concerns no resource of that key. */
  predicate Spares(codec: Codec, op: Op, key: ResourceKey) {
    op.Note? || op.Record? || op.Remember? || (op.Install? && KeyOfSnapshot(codec, op.snapshot) != key)
  }

  lemma {:induction false} SparedStays(codec: Codec, ctx: Context, ops: seq<Op>, key: ResourceKey)
    requires forall i :: 0 <= i < |ops| ==> Spares(codec, ops[i], key)
    ensures Perform(codec, ctx, ops).resources.Get(key) == ctx.resources.Get(key)
    decreases |ops|
  {
    if |ops| > 0 { SparedStays(codec, ctx, ops[..|ops| - 1], key); }
  }

  lemma SparedOnce(codec: Codec, ctx: Context, op: Op, key: ResourceKey)
    requires Spares(codec, op, key)
    ensures Do(codec, ctx, op).resources.Get(key) == ctx.resources.Get(key)
  {
  }

  lemma InstallMakesBaseline(codec: Codec, ctx: Context, s: Snapshot, idx: nat)
    ensures HasBaseline(codec, InstallSnapshot(codec, ctx, s, idx), s, idx)
  {
  }

  lemma BaselineStays(codec: Codec, a: Context, b: Context, s: Snapshot, idx: nat)
    requires HasBaseline(codec, a, s, idx) && b.resources.Get(KeyOfSnapshot(codec, s)) == a.resources.Get(KeyOfSnapshot(codec, s))
    ensures HasBaseline(codec, b, s, idx)
  {
  }

  lemma {:induction false} LastInstallCounts(codec: Codec, ctx: Context, ops: seq<Op>, p: nat, s: Snapshot, idx: nat)
    requires p < |ops| && ops[p] == Install(s, idx)
    requires forall q :: p < q < |ops| ==> Spares(codec, ops[q], KeyOfSnapshot(codec, s))
    ensures HasBaseline(codec, Perform(codec, ctx, ops), s, idx)
    decreases |ops|
  {
    var n := |ops| - 1;
    var before := Perform(codec, ctx, ops[..n]);
    if p < n {
      LastInstallCounts(codec, ctx, ops[..n], p, s, idx);
      SparedOnce(codec, before, ops[n], KeyOfSnapshot(codec, s));
      BaselineStays(codec, before, Do(codec, before, ops[n]), s, idx);
    } else {
      InstallMakesBaseline(codec, before, s, idx);
    }
  }

  lemma {:induction false} InstallOpAt(snapshots: seq<Option<Snapshot>>, idx: nat, i: nat)
    requires i < |snapshots|
    ensures InstallOps(snapshots, idx)[i] == InstallOp(snapshots[i], idx)
    decreases |snapshots|
  {
    if i > 0 { InstallOpAt(snapshots[1..], idx, i - 1); }
  }

  /** The snapshot at `p` is well formed, and no later one is of the same resource. */
  ghost predicate LastOfItsKey(codec: Codec, snapshots: seq<Option<Snapshot>>, p: nat) {
    && p < |snapshots| && snapshots[p].Some?
    && forall q :: p < q < |snapshots| && snapshots[q].Some? ==> KeyOfSnapshot(codec, snapshots[q].value) != KeyOfSnapshot(codec, snapshots[p].value)
  }

  ghost predicate NoneOfKey(codec: Codec, snapshots: seq<Option<Snapshot>>, key: ResourceKey) {
    forall q :: 0 <= q < |snapshots| && snapshots[q].Some? ==> KeyOfSnapshot(codec, snapshots[q].value) != key
  }

  /** A list of snapshots: the last of each resource is its baseline, and no other resource is touched. */
  ghost predicate InstallsAll(codec: Codec, before: Context, after: Context, snapshots: seq<Option<Snapshot>>, idx: nat) {
    && (forall p: nat :: LastOfItsKey(codec, snapshots, p) ==> HasBaseline(codec, after, snapshots[p].value, idx))
    && (forall key :: NoneOfKey(codec, snapshots, key) ==> after.resources.Get(key) == before.resources.Get(key))
  }

  lemma ListInstalls(codec: Codec, ctx: Context, snapshots: seq<Option<Snapshot>>, idx: nat)
    ensures InstallsAll(codec, ctx, Perform(codec, ctx, InstallOps(snapshots, idx)), snapshots, idx)
  {
    var ops := InstallOps(snapshots, idx);
    forall q | 0 <= q < |snapshots| ensures ops[q] == InstallOp(snapshots[q], idx) { InstallOpAt(snapshots, idx, q); }
    forall p: nat | LastOfItsKey(codec, snapshots, p) ensures HasBaseline(codec, Perform(codec, ctx, ops), snapshots[p].value, idx) {
      LastInstallCounts(codec, ctx, ops, p, snapshots[p].value, idx);
    }
    forall key | NoneOfKey(codec, snapshots, key) ensures Perform(codec, ctx, ops).resources.Get(key) == ctx.resources.Get(key) {
      SparedStays(codec, ctx, ops, key);
    }
  }

  /** The answer `result` to the last request of its key comes at event `j`. */
  ghost predicate AnsweredAt(events: seq<Input>, i: nat, j: nat, k: Key, method_: Option<string>, result: Option<Result>) {
    AskedAt(events, i, j, k, method_) && j < |events| && events[j].ResponseInput? && events[j].key == k && events[j].result == result
  }

  lemma AnswerPerforms(codec: Codec, start: Context, events: seq<Input>, i: nat, j: nat, k: Key, method_: Option<string>, result: Result)
    requires AnsweredAt(events, i, j, k, method_, Some(result))
    ensures ProcessEvents(codec, start, events, j + 1)
         == Perform(codec, ProcessEvents(codec, start, events, j), ResponseOps(method_, result, j, events[j].ts))
  {
    LastRequestCounts(codec, start, events, i, j, k, method_);
  }

  /** A subscribe answer makes its snapshot the baseline of its resource, and touches no other. */
  lemma SubscribeInstalls(codec: Codec, start: Context, events: seq<Input>, i: nat, j: nat, k: Key, result: Result)
    requires AnsweredAt(events, i, j, k, Some("subscribe"), Some(result)) && result.snapshot.Some?
    ensures InstallsAll(codec, ProcessEvents(codec, start, events, j), ProcessEvents(codec, start, events, j + 1), [result.snapshot.value], j)
  {
    var s := result.snapshot.value;
    AnswerPerforms(codec, start, events, i, j, k, Some("subscribe"), result);
    ListInstalls(codec, ProcessEvents(codec, start, events, j), [s], j);
    assert InstallOps([s], j) == [InstallOp(s, j)];
  }

  /** An initialize answer does so with every snapshot it lists. */
  lemma InitializeInstalls(codec: Codec, start: Context, events: seq<Input>, i: nat, j: nat, k: Key, result: Result)
    requires AnsweredAt(events, i, j, k, Some("initialize"), Some(result)) && result.snapshots.Some?
    ensures InstallsAll(codec, ProcessEvents(codec, start, events, j), ProcessEvents(codec, start, events, j + 1), result.snapshots.value, j)
  {
    AnswerPerforms(codec, start, events, i, j, k, Some("initialize"), result);
    ListInstalls(codec, ProcessEvents(codec, start, events, j), result.snapshots.value, j);
  }

  /** And so does a reconnect answer that brings snapshots. */
  lemma ReconnectInstalls(codec: Codec, start: Context, events: seq<Input>, i: nat, j: nat, k: Key, result: Result)
    requires AnsweredAt(events, i, j, k, Some("reconnect"), Some(result))
    requires result.reconnect.ReconnectSnapshots? && result.reconnect.snapshots.Some?
    ensures InstallsAll(codec, ProcessEvents(codec, start, events, j), ProcessEvents(codec, start, events, j + 1), result.reconnect.snapshots.value, j)
  {
    MethodsDiffer();
    AnswerPerforms(codec, start, events, i, j, k, Some("reconnect"), result);
    ListInstalls(codec, ProcessEvents(codec, start, events, j), result.reconnect.snapshots.value, j);
  }

  lemma MethodsDiffer()
    ensures "initialize" != "reconnect" && "subscribe" != "reconnect" && "initialize" != "subscribe"
  {
    assert "initialize"[0] == 'i' && "subscribe"[0] == 's' && "reconnect"[0] == 'r';
  }

  /** The answer to any other request, or one without a result, leaves the replay as it was. */
  lemma OtherAnswersDoNothing(codec: Codec, start: Context, events: seq<Input>, i: nat, j: nat, k: Key, method_: Option<string>, result: Option<Result>)
    requires AnsweredAt(events, i, j, k, method_, result)
    requires result.None? || (method_ != Some("initialize") && method_ != Some("subscribe") && method_ != Some("reconnect"))
    ensures ProcessEvents(codec, start, events, j + 1) == ProcessEvents(codec, start, events, j)
  {
    LastRequestCounts(codec, start, events, i, j, k, method_);
  }

  lemma {:induction false} NobodyAskedAlong(codec: Codec, start: Context, events: seq<Input>, ctxs: seq<Context>, n: nat, k: Key)
    requires Along(codec, start, events, ctxs) && n < |ctxs| && k !in start.requests
    requires forall m :: 0 <= m < n ==> !(events[m].RequestInput? && events[m].key == k)
    ensures k !in ctxs[n].requests
    decreases n
  {
    if n > 0 {
      NobodyAskedAlong(codec, start, events, ctxs, n - 1, k);
      assert Leads(codec, ctxs[n - 1], ctxs[n], events[n - 1], n - 1);
      RequestsAfter(codec, ctxs[n - 1], events[n - 1], n - 1);
    }
  }

  /** An answer nobody asked for does nothing either. */
  lemma UnaskedAnswersDoNothing(codec: Codec, start: Context, events: seq<Input>, j: nat, k: Key)
    requires j < |events| && events[j].ResponseInput? && events[j].key == k && k !in start.requests
    requires forall m :: 0 <= m < j ==> !(events[m].RequestInput? && events[m].key == k)
    ensures ProcessEvents(codec, start, events, j + 1) == ProcessEvents(codec, start, events, j)
  {
    var ctxs := ContextsOf(codec, start, events, j);
    NobodyAskedAlong(codec, start, events, ctxs, j, k);
  }

  /** An answer without what its method promises is diagnosed as malformed, and changes nothing else. */
  lemma MalformedAnswerIsDiagnosed(codec: Codec, start: Context, events: seq<Input>, i: nat, j: nat, k: Key, method_: Option<string>, result: Result)
    requires AnsweredAt(events, i, j, k, method_, Some(result))
    requires
      || (method_ == Some("initialize") && result.snapshots.None?)
      || (method_ == Some("subscribe") && (result.snapshot.None? || result.snapshot.value.None?))
      || (method_ == Some("reconnect") && (result.reconnect.MalformedReconnect? || (result.reconnect.ReconnectSnapshots? && result.reconnect.snapshots.None?)))
    ensures
      var before, after := ProcessEvents(codec, start, events, j), ProcessEvents(codec, start, events, j + 1);
      after == before.(diagnostics := before.diagnostics + [Diagnostic(MalformedEnvelope, Warning, j)])
  {
    MethodsDiffer();
    AnswerPerforms(codec, start, events, i, j, k, method_, result);
    Laws.PerformOne(codec, ProcessEvents(codec, start, events, j), Malformed(j));
  }

  // ---------- which intents are recorded ----------

  /** The positions of the client's intents among the first `n` events. */
  function IntentEvents(events: seq<Input>, n: nat): (r: seq<nat>)
    requires n <= |events|
    ensures forall m :: 0 <= m < |r| ==> r[m] < n && events[r[m]].IntentInput?
  {
    if n == 0 then [] else IntentEvents(events, n - 1) + if events[n - 1].IntentInput? then [n - 1] else []
  }

  predicate Tells(intent: Intent, ev: Input, idx: nat) {
    && ev.IntentInput? && intent.eventIdx == idx && intent.ts == ev.ts
    && intent.clientSeq == ev.clientSeq && intent.actionType == ev.actionType && intent.target == ev.target
  }

  lemma {:induction false} PerformRecordsNothing(codec: Codec, ctx: Context, ops: seq<Op>)
    requires forall i :: 0 <= i < |ops| ==> IsEffect(ops[i]) || ops[i].Remember? || ops[i].Note?
    ensures |Perform(codec, ctx, ops).intents| == |ctx.intents|
    decreases |ops|
  {
    if |ops| > 0 {
      var n := |ops| - 1;
      PerformRecordsNothing(codec, ctx, ops[..n]);
      if ops[n].Deliver? {
        Reports.AcceptFirstGrows(Perform(codec, ctx, ops[..n]).intents, ops[n].envelope.clientSeq, ops[n].envelope.serverSeq);
      }
    }
  }

  lemma IntentsAfter(codec: Codec, ctx: Context, ev: Input, idx: nat)
    ensures
      var after := ProcessEvent(codec, ctx, ev, idx).intents;
      && |after| == |ctx.intents| + (if ev.IntentInput? then 1 else 0)
      && Reports.IntentsGrow(ctx.intents, after)
      && (ev.IntentInput? ==> Tells(after[|ctx.intents|], ev, idx))
  {
    Reports.PerformGrowsIntents(codec, ctx, OpsOf(ctx.requests, ev, idx));
    if ev.IntentInput? {
      var intent, d := Intent(idx, ev.ts, ev.clientSeq, ev.actionType, ev.target, None), Diagnostic(IgnoredClientIntent, Info, idx);
      assert [Record(intent), Note(d)] == [Record(intent)] + [Note(d)];
      Laws.PerformConcat(codec, ctx, [Record(intent)], [Note(d)]);
      Laws.PerformOne(codec, ctx, Record(intent));
      Laws.PerformOne(codec, ctx.(intents := ctx.intents + [intent]), Note(d));
    } else {
      if !ev.RequestInput? && !ev.Unparsed? { OthersAreEffects(ctx.requests, ev, idx); }
      PerformRecordsNothing(codec, ctx, OpsOf(ctx.requests, ev, idx));
    }
  }

  ghost predicate AllTell(intents: seq<Intent>, events: seq<Input>, at: seq<nat>) {
    |intents| == |at| && forall m :: 0 <= m < |at| ==> at[m] < |events| && Tells(intents[m], events[at[m]], at[m])
  }

  lemma AllTellOn(intents: seq<Intent>, later: seq<Intent>, events: seq<Input>, at: seq<nat>, idx: nat)
    requires AllTell(intents, events, at) && Reports.IntentsGrow(intents, later) && idx < |events|
    ensures |later| == |at| ==> AllTell(later, events, at)
    ensures |later| == |at| + 1 && Tells(later[|at|], events[idx], idx) ==> AllTell(later, events, at + [idx])
  {
    forall m | 0 <= m < |at| ensures Tells(later[m], events[at[m]], at[m]) {
      assert Reports.IntentGrows(intents[m], later[m]);
    }
  }

  lemma {:induction false} IntentsAlong(codec: Codec, events: seq<Input>, ctxs: seq<Context>, n: nat)
    requires Along(codec, EMPTY, events, ctxs) && n < |ctxs|
    ensures AllTell(ctxs[n].intents, events, IntentEvents(events, n))
    decreases n
  {
    if n > 0 {
      IntentsAlong(codec, events, ctxs, n - 1);
      assert Leads(codec, ctxs[n - 1], ctxs[n], events[n - 1], n - 1);
      LeadTells(codec, ctxs[n - 1], ctxs[n], events, n - 1, IntentEvents(events, n - 1));
    }
  }

  lemma LeadTells(codec: Codec, before: Context, after: Context, events: seq<Input>, idx: nat, at: seq<nat>)
    requires idx < |events| && Leads(codec, before, after, events[idx], idx) && AllTell(before.intents, events, at)
    ensures AllTell(after.intents, events, at + if events[idx].IntentInput? then [idx] else [])
  {
    IntentsAfter(codec, before, events[idx], idx);
    AllTellOn(before.intents, after.intents, events, at, idx);
    assert at + [] == at;
  }

  /** After any log the intents are those of its intent events, one each, in order. */
  lemma IntentsAreRecorded(codec: Codec, events: seq<Input>, n: nat)
    requires n <= |events|
    ensures AllTell(ProcessEvents(codec, EMPTY, events, n).intents, events, IntentEvents(events, n))
  {
    var ctxs := ContextsOf(codec, EMPTY, events, n);
    IntentsAlong(codec, events, ctxs, n);
  }

  // ---------- which events are complained about as such ----------

  /** Complaints about an event itself, not about a resource or an answer. */
  predicate AboutEvent(code: Code) {
    code == ParseFailure || code == IgnoredClientIntent
  }

  lemma {:induction false} ComplaintsAreNotAboutEvents(r: Resource, n: nat, idx: nat, i: nat)
    requires |r.diagnostics| <= i < |Complaints(r, n, idx).diagnostics|
    ensures !AboutEvent(Complaints(r, n, idx).diagnostics[i].code)
    decreases n
  {
    var d := Diagnostic(UnknownAction, Warning, idx);
    if n > 0 {
      if i > |r.diagnostics| {
        ComplaintsAreNotAboutEvents(WithDiagnostic(r, d), n - 1, idx, i);
      } else {
        Reports.ComplaintsExtend(WithDiagnostic(r, d), n - 1, idx);
      }
    }
  }

  lemma ReceiveIsNotAboutEvents(codec: Codec, r: Resource, e: Envelope, idx: nat, ts: int, i: nat)
    requires |r.diagnostics| <= i < |Receive(codec, r, e, idx, ts).diagnostics|
    ensures !AboutEvent(Receive(codec, r, e, idx, ts).diagnostics[i].code)
  {
    var kind := TargetKind(codec, e);
    var code := JudgeSeq(r.lastServerSeq, e.serverSeq).1;
    var judged := if code.Some? then WithDiagnostic(r, Diagnostic(code.value, Warning, idx)) else r;
    var reduced := codec.reduce(kind, r.state, e.action, ts);
    var start := judged.(state := reduced.state, lastAppliedEventIdx := idx, lastServerSeq := Some(e.serverSeq));
    Reports.ComplaintsExtend(start, reduced.complaints, idx);
    if Applies(r, e) && kind != UnknownKind && r.key.kind == kind && i >= |judged.diagnostics| {
      ComplaintsAreNotAboutEvents(start, reduced.complaints, idx, i);
    }
  }

  lemma DeliverIsNotAboutEvents(codec: Codec, ctx: Context, e: Envelope, idx: nat, ts: int, d: Diagnostic)
    requires AboutEvent(d.code)
    ensures d in ApplyEnvelope(codec, ctx, e, idx, ts).diagnostics <==> d in ctx.diagnostics
  {
    var found := FindResource(ctx, ResourceKey(TargetKind(codec, e), e.channel));
    if found.Some? && found.value in ctx.resources.entries {
      var r := ctx.resources.entries[found.value];
      var r' := Receive(codec, r, e, idx, ts);
      if d in NewDiagnostics(r, r') {
        var i :| 0 <= i < |NewDiagnostics(r, r')| && NewDiagnostics(r, r')[i] == d;
        ReceiveIsNotAboutEvents(codec, r, e, idx, ts, |r.diagnostics| + i);
      }
    }
  }

  lemma {:induction false} PerformNotes(codec: Codec, ctx: Context, ops: seq<Op>, d: Diagnostic)
    requires AboutEvent(d.code)
    ensures d in Perform(codec, ctx, ops).diagnostics <==> d in ctx.diagnostics || Note(d) in ops
    decreases |ops|
  {
    if |ops| > 0 {
      var n := |ops| - 1;
      var before := Perform(codec, ctx, ops[..n]);
      PerformNotes(codec, ctx, ops[..n], d);
      assert ops == ops[..n] + [ops[n]];
      DoNotes(codec, before, ops[n], d);
    }
  }

  lemma DoNotes(codec: Codec, ctx: Context, op: Op, d: Diagnostic)
    requires AboutEvent(d.code)
    ensures d in Do(codec, ctx, op).diagnostics <==> d in ctx.diagnostics || op == Note(d)
  {
    if op.Deliver? { DeliverIsNotAboutEvents(codec, ctx, op.envelope, op.idx, op.ts, d); }
  }

  /** What is complained about an event as such. */
  function ComplaintAbout(ev: Input, idx: nat): Option<Diagnostic> {
    match ev
    case Unparsed => Some(Diagnostic(ParseFailure, Warning, idx))
    case IntentInput(_, _, _, _) => Some(Diagnostic(IgnoredClientIntent, Info, idx))
    case _ => None
  }

  lemma EventNotes(codec: Codec, ctx: Context, ev: Input, idx: nat, d: Diagnostic)
    requires AboutEvent(d.code)
    ensures d in ProcessEvent(codec, ctx, ev, idx).diagnostics <==> d in ctx.diagnostics || ComplaintAbout(ev, idx) == Some(d)
  {
    var ops := OpsOf(ctx.requests, ev, idx);
    PerformNotes(codec, ctx, ops, d);
    if !ev.RequestInput? && !ev.IntentInput? && !ev.Unparsed? {
      OthersAreEffects(ctx.requests, ev, idx);
      EffectsNoteNoEvent(ops, d);
    }
  }

  lemma EffectsNoteNoEvent(ops: seq<Op>, d: Diagnostic)
    requires OnlyEffects(ops) && AboutEvent(d.code)
    ensures Note(d) !in ops
  {
    assert !IsEffect(Note(d));
  }

  /** One of the first `n` events is complained about so. */
  ghost predicate Complained(events: seq<Input>, n: nat, d: Diagnostic)
    requires n <= |events|
  {
    exists i :: 0 <= i < n && ComplaintAbout(events[i], i) == Some(d)
  }

  lemma ComplainedNext(events: seq<Input>, n: nat, d: Diagnostic)
    requires 0 < n <= |events|
    ensures Complained(events, n, d) <==> Complained(events, n - 1, d) || ComplaintAbout(events[n - 1], n - 1) == Some(d)
  {
  }

  lemma {:induction false} NotedAlong(codec: Codec, events: seq<Input>, ctxs: seq<Context>, n: nat, d: Diagnostic)
    requires Along(codec, EMPTY, events, ctxs) && n < |ctxs| && AboutEvent(d.code)
    ensures d in ctxs[n].diagnostics <==> Complained(events, n, d)
    decreases n
  {
    if n > 0 {
      NotedAlong(codec, events, ctxs, n - 1, d);
      ComplainedNext(events, n, d);
      assert Leads(codec, ctxs[n - 1], ctxs[n], events[n - 1], n - 1);
      LeadNotes(codec, ctxs[n - 1], ctxs[n], events[n - 1], n - 1, d);
    }
  }

  lemma LeadNotes(codec: Codec, before: Context, after: Context, ev: Input, idx: nat, d: Diagnostic)
    requires Leads(codec, before, after, ev, idx) && AboutEvent(d.code)
    ensures d in after.diagnostics <==> d in before.diagnostics || ComplaintAbout(ev, idx) == Some(d)
  {
    EventNotes(codec, before, ev, idx, d);
  }

  /** After any log: every event that does not parse is complained about, every intent is noted as ignored, by its
      index, and nothing else is. */
  lemma EventsAreNoted(codec: Codec, events: seq<Input>, n: nat, d: Diagnostic)
    requires n <= |events| && AboutEvent(d.code)
    ensures d in ProcessEvents(codec, EMPTY, events, n).diagnostics <==> Complained(events, n, d)
  {
    var ctxs := ContextsOf(codec, EMPTY, events, n);
    NotedAlong(codec, events, ctxs, n, d);
  }
}
