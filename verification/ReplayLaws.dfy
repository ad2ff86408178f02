/** Why a resource marked complete can be trusted, and why replaying part of the log again does no harm. */
module ReplayLaws {
  import opened Collections
  import opened Events
  import opened ReplaySpec

  lemma ColonCancels(a: string, b: string, x: string, y: string)
    requires a + ":" + x == b + ":" + y && ':' !in a && ':' !in b
    ensures a == b && x == y
  {
    var s := a + ":" + x;
    assert s[..|a|] == a && s[|a|] == ':' && s[|a| + 1..] == x;
    assert (b + ":" + y)[..|b|] == b && (b + ":" + y)[|b|] == ':' && (b + ":" + y)[|b| + 1..] == y;
    assert forall i :: 0 <= i < |a| ==> a[i] == s[i] != ':';
    assert forall i :: 0 <= i < |b| ==> b[i] == s[i] != ':';
  }

  lemma KindNameInjective(a: Kind, b: Kind)
    requires KindName(a) == KindName(b)
    ensures a == b
  {
    assert |KindName(a)| == |KindName(b)| && KindName(a)[0] == KindName(b)[0] && KindName(a)[2] == KindName(b)[2];
  }

  /** The text a resource is filed under determines its kind and uri. */
  lemma MapKeyInjective(a: ResourceKey, b: ResourceKey)
    ensures ResourceMapKey(a) == ResourceMapKey(b) <==> a == b
  {
    if ResourceMapKey(a) == ResourceMapKey(b) {
      ColonCancels(KindName(a.kind), KindName(b.kind), a.uri, b.uri);
      KindNameInjective(a.kind, b.kind);
    }
  }

  // ---------- every resource is accounted for by the log ----------

  /** Reducing `state` by the deliveries at the positions `es`. */
  function Fold(codec: Codec, ops: seq<Op>, kind: Kind, state: Json, es: seq<nat>): Json
    requires forall i :: 0 <= i < |es| ==> es[i] < |ops| && ops[es[i]].Deliver?
  {
    if |es| == 0 then state
    else
      var d := ops[es[|es| - 1]];
      codec.reduce(kind, Fold(codec, ops, kind, state, es[..|es| - 1]), d.envelope.action, d.ts).state
  }

  /** `es` are positions of deliveries after `m`, in order, aimed at exactly this resource, with growing
      sequence numbers that start above the baseline's. */
  ghost predicate Deliveries(codec: Codec, ops: seq<Op>, key: ResourceKey, fromSeq: int, m: nat, es: seq<nat>) {
    && (forall i :: 0 <= i < |es| ==> m < es[i] < |ops| && ops[es[i]].Deliver?)
    && (forall i :: 0 <= i < |es| ==> ResourceKey(TargetKind(codec, ops[es[i]].envelope), ops[es[i]].envelope.channel) == key)
    && (forall i, j :: 0 <= i < j < |es| ==> es[i] < es[j] && ops[es[i]].envelope.serverSeq < ops[es[j]].envelope.serverSeq)
    && (forall i :: 0 <= i < |es| ==> fromSeq < ops[es[i]].envelope.serverSeq)
  }

  /** The resource is its baseline, installed at `m`, reduced by the deliveries `es`, the last of which is the
      event last applied; when it is complete, these are numbered exactly from the baseline to the last
      sequence number, none missing. */
  ghost predicate Explained(codec: Codec, ops: seq<Op>, r: Resource, m: nat, es: seq<nat>) {
    && m < |ops| && ops[m].Install?
    && ResourceKey(SnapshotKind(codec, ops[m].snapshot), ops[m].snapshot.resource) == r.key
    && ops[m].snapshot.fromSeq == r.baselineFromSeq && ops[m].idx == r.baselineEventIdx
    && Deliveries(codec, ops, r.key, r.baselineFromSeq, m, es)
    && r.lastServerSeq.Some? && r.baselineFromSeq <= r.lastServerSeq.value
    && (forall i :: 0 <= i < |es| ==> ops[es[i]].envelope.serverSeq <= r.lastServerSeq.value)
    && r.state == Fold(codec, ops, r.key.kind, ops[m].snapshot.state, es)
    && r.lastAppliedEventIdx == (if |es| == 0 then r.baselineEventIdx else ops[es[|es| - 1]].idx)
    && (r.confidence == Complete ==> Consecutive(ops, r, es))
  }

  ghost predicate Consecutive(ops: seq<Op>, r: Resource, es: seq<nat>)
    requires forall i :: 0 <= i < |es| ==> es[i] < |ops| && ops[es[i]].Deliver?
  {
    && r.lastServerSeq == Some(r.baselineFromSeq + |es|)
    && forall i :: 0 <= i < |es| ==> ops[es[i]].envelope.serverSeq == r.baselineFromSeq + 1 + i
  }

  predicate Aims(codec: Codec, op: Op, key: ResourceKey) {
    op.Deliver? && ResourceKey(TargetKind(codec, op.envelope), op.envelope.channel) == key
  }

  predicate Installs(codec: Codec, op: Op, key: ResourceKey) {
    op.Install? && ResourceKey(SnapshotKind(codec, op.snapshot), op.snapshot.resource) == key
  }

  /** The baseline at `m` is the last one; and nothing aimed at a complete resource since is missing from `es`. */
  ghost predicate NothingElse(codec: Codec, ops: seq<Op>, r: Resource, m: nat, es: seq<nat>) {
    && (forall i :: m < i < |ops| ==> !Installs(codec, ops[i], r.key))
    && (r.confidence == Complete ==> forall i: nat :: m < i < |ops| && Aims(codec, ops[i], r.key) ==> i in es)
  }

  ghost predicate Accounted(codec: Codec, ops: seq<Op>, r: Resource, m: nat, es: seq<nat>) {
    Explained(codec, ops, r, m, es) && NothingElse(codec, ops, r, m, es)
  }

  ghost predicate Sound(codec: Codec, ops: seq<Op>, key: ResourceKey, r: Resource) {
    && r.key == key
    && (r.confidence == Complete <==> r.diagnostics == [])
    && exists m: nat, es: seq<nat> :: Accounted(codec, ops, r, m, es)
  }

  ghost predicate Inv(codec: Codec, ops: seq<Op>, ctx: Context) {
    && ctx.resources.Valid()
    && forall k :: k in ctx.resources.entries ==> Sound(codec, ops, k, ctx.resources.entries[k])
  }

  // ---------- more log ----------

  lemma {:induction false} FoldGrows(codec: Codec, ops: seq<Op>, op: Op, kind: Kind, state: Json, es: seq<nat>)
    requires forall i :: 0 <= i < |es| ==> es[i] < |ops| && ops[es[i]].Deliver?
    ensures forall i :: 0 <= i < |es| ==> (ops + [op])[es[i]] == ops[es[i]]
    ensures Fold(codec, ops + [op], kind, state, es) == Fold(codec, ops, kind, state, es)
    decreases |es|
  {
    if |es| > 0 { FoldGrows(codec, ops, op, kind, state, es[..|es| - 1]); }
  }

  lemma ExplainedGrows(codec: Codec, ops: seq<Op>, op: Op, r: Resource, m: nat, es: seq<nat>)
    requires Explained(codec, ops, r, m, es)
    ensures Explained(codec, ops + [op], r, m, es)
  {
    FoldGrows(codec, ops, op, r.key.kind, ops[m].snapshot.state, es);
  }

  lemma NothingElseGrows(codec: Codec, ops: seq<Op>, op: Op, r: Resource, r': Resource, m: nat, es: seq<nat>)
    requires NothingElse(codec, ops, r, m, es) && r'.key == r.key && !Installs(codec, op, r.key)
    requires r'.confidence == Complete ==> r.confidence == Complete
    ensures !(r'.confidence == Complete && Aims(codec, op, r.key)) ==> NothingElse(codec, ops + [op], r', m, es)
    ensures NothingElse(codec, ops + [op], r', m, es + [|ops|])
  {
    var all := ops + [op];
    assert forall i :: m < i < |all| ==> all[i] == if i < |ops| then ops[i] else op;
  }

  /** An operation that neither installs the resource nor is aimed at it. */
  lemma SoundGrows(codec: Codec, ops: seq<Op>, op: Op, key: ResourceKey, r: Resource)
    requires Sound(codec, ops, key, r) && !Installs(codec, op, key) && !Aims(codec, op, key)
    ensures Sound(codec, ops + [op], key, r)
  {
    var m: nat, es: seq<nat> :| Accounted(codec, ops, r, m, es);
    ExplainedGrows(codec, ops, op, r, m, es);
    NothingElseGrows(codec, ops, op, r, r, m, es);
    assert Accounted(codec, ops + [op], r, m, es);
  }

  /** A resource that differs only in diagnostics, confidence and event indexes, not for the better. */
  lemma ExplainedBlamed(codec: Codec, ops: seq<Op>, r: Resource, r': Resource, m: nat, es: seq<nat>)
    requires Explained(codec, ops, r, m, es)
    requires SameBaseline(r, r') && r'.state == r.state && r'.lastAppliedEventIdx == r.lastAppliedEventIdx
    requires r'.lastServerSeq.Some? && r'.lastServerSeq.value >= r.lastServerSeq.value && r'.confidence != Complete
    ensures Explained(codec, ops, r', m, es)
  {
  }

  /** One more delivery to a resource keeps it explained. */
  lemma ReceiveKeeps(codec: Codec, ops: seq<Op>, key: ResourceKey, r: Resource, e: Envelope, idx: nat, ts: int)
    requires Sound(codec, ops, key, r)
    requires key == ResourceKey(TargetKind(codec, e), e.channel) || key.kind != TargetKind(codec, e)
    ensures Sound(codec, ops + [Deliver(e, idx, ts)], key, Receive(codec, r, e, idx, ts))
  {
    var op := Deliver(e, idx, ts);
    var all := ops + [op];
    var r' := Receive(codec, r, e, idx, ts);
    var m: nat, es: seq<nat> :| Accounted(codec, ops, r, m, es);
    ExplainedGrows(codec, ops, op, r, m, es);
    if Applies(r, e) && TargetKind(codec, e) != UnknownKind && r.key.kind == TargetKind(codec, e) {
      ReduceKeeps(codec, ops, r, e, idx, ts, m, es);
      NothingElseGrows(codec, ops, op, r, r', m, es);
      assert Accounted(codec, all, r', m, es + [|ops|]);
    } else {
      BlamedFields(codec, r, e, idx, ts);
      ExplainedBlamed(codec, all, r, r', m, es);
      NothingElseGrows(codec, ops, op, r, r', m, es);
      assert Accounted(codec, all, r', m, es);
    }
  }

  /** What any other envelope leaves in the resource: never a complete one. */
  lemma BlamedFields(codec: Codec, r: Resource, e: Envelope, idx: nat, ts: int)
    requires !(Applies(r, e) && TargetKind(codec, e) != UnknownKind && r.key.kind == TargetKind(codec, e))
    requires r.lastServerSeq.Some?
    ensures
      var r' := Receive(codec, r, e, idx, ts);
      && SameBaseline(r, r') && r'.state == r.state && r'.lastAppliedEventIdx == r.lastAppliedEventIdx
      && r'.lastServerSeq.Some? && r'.lastServerSeq.value >= r.lastServerSeq.value
      && r'.confidence != Complete && |r'.diagnostics| > 0
  {
  }

  lemma ReduceKeeps(codec: Codec, ops: seq<Op>, r: Resource, e: Envelope, idx: nat, ts: int, m: nat, es: seq<nat>)
    requires Explained(codec, ops, r, m, es) && (r.confidence == Complete <==> r.diagnostics == [])
    requires Applies(r, e) && TargetKind(codec, e) != UnknownKind && r.key == ResourceKey(TargetKind(codec, e), e.channel)
    ensures
      var r' := Receive(codec, r, e, idx, ts);
      && Explained(codec, ops + [Deliver(e, idx, ts)], r', m, es + [|ops|])
      && (r'.confidence == Complete <==> r'.diagnostics == []) && r'.key == r.key
      && (r'.confidence == Complete ==> r.confidence == Complete)
  {
    ReducedFields(codec, r, e, idx, ts);
    ExplainedByOneMore(codec, ops, Deliver(e, idx, ts), r, Receive(codec, r, e, idx, ts), m, es);
  }

  /** What an accepted envelope of the right kind leaves in the resource. */
  lemma ReducedFields(codec: Codec, r: Resource, e: Envelope, idx: nat, ts: int)
    requires Applies(r, e) && TargetKind(codec, e) != UnknownKind && r.key.kind == TargetKind(codec, e)
    requires r.confidence == Complete <==> r.diagnostics == []
    ensures
      var r' := Receive(codec, r, e, idx, ts);
      && SameBaseline(r, r') && r'.lastServerSeq == Some(e.serverSeq) && r'.lastAppliedEventIdx == idx
      && r'.state == codec.reduce(r.key.kind, r.state, e.action, ts).state
      && (r'.confidence == Complete <==> r'.diagnostics == [])
      && (r'.confidence == Complete && r.lastServerSeq.Some? ==> r.confidence == Complete && e.serverSeq == r.lastServerSeq.value + 1)
  {
    ComplaintsCount(r, codec.reduce(TargetKind(codec, e), r.state, e.action, ts).complaints, idx);
  }

  predicate SameBaseline(r: Resource, r': Resource) {
    r'.key == r.key && r'.baselineFromSeq == r.baselineFromSeq && r'.baselineEventIdx == r.baselineEventIdx
  }

  lemma DeliveriesGrow(codec: Codec, ops: seq<Op>, op: Op, key: ResourceKey, fromSeq: int, m: nat, es: seq<nat>, last: int)
    requires m < |ops| && Deliveries(codec, ops, key, fromSeq, m, es) && op.Deliver?
    requires ResourceKey(TargetKind(codec, op.envelope), op.envelope.channel) == key && fromSeq <= last < op.envelope.serverSeq
    requires forall i :: 0 <= i < |es| ==> ops[es[i]].envelope.serverSeq <= last
    ensures Deliveries(codec, ops + [op], key, fromSeq, m, es + [|ops|])
  {
    var all, es' := ops + [op], es + [|ops|];
    assert all[|ops|] == op;
    assert forall i :: 0 <= i < |es| ==> es'[i] == es[i] && all[es[i]] == ops[es[i]];
  }

  lemma FoldSnoc(codec: Codec, ops: seq<Op>, op: Op, kind: Kind, state: Json, es: seq<nat>)
    requires (forall i :: 0 <= i < |es| ==> es[i] < |ops| && ops[es[i]].Deliver?) && op.Deliver?
    ensures forall i :: 0 <= i < |es + [|ops|]| ==> (es + [|ops|])[i] < |ops + [op]| && (ops + [op])[(es + [|ops|])[i]].Deliver?
    ensures Fold(codec, ops + [op], kind, state, es + [|ops|])
         == codec.reduce(kind, Fold(codec, ops, kind, state, es), op.envelope.action, op.ts).state
  {
    FoldGrows(codec, ops, op, kind, state, es);
    assert (es + [|ops|])[..|es|] == es && (ops + [op])[|ops|] == op;
  }

  lemma ExplainedByOneMore(codec: Codec, ops: seq<Op>, op: Op, r: Resource, r': Resource, m: nat, es: seq<nat>)
    requires Explained(codec, ops, r, m, es) && op.Deliver?
    requires ResourceKey(TargetKind(codec, op.envelope), op.envelope.channel) == r.key && SameBaseline(r, r')
    requires r'.lastAppliedEventIdx == op.idx
    requires r'.lastServerSeq == Some(op.envelope.serverSeq) && op.envelope.serverSeq > r.lastServerSeq.value
    requires r'.state == codec.reduce(r.key.kind, r.state, op.envelope.action, op.ts).state
    requires r'.confidence == Complete ==> r.confidence == Complete && op.envelope.serverSeq == r.lastServerSeq.value + 1
    ensures Explained(codec, ops + [op], r', m, es + [|ops|])
  {
    FoldSnoc(codec, ops, op, r.key.kind, ops[m].snapshot.state, es);
    DeliveriesGrow(codec, ops, op, r.key, r.baselineFromSeq, m, es, r.lastServerSeq.value);
    assert forall i :: 0 <= i < |es| ==> (es + [|ops|])[i] == es[i] && (ops + [op])[es[i]] == ops[es[i]];
  }

  lemma ComplaintsCount(r: Resource, n: nat, idx: nat)
    ensures n > 0 ==> Complaints(r, n, idx).diagnostics != []
  {
  }

  // ---------- every operation ----------

  /** The resource an envelope reaches is its exact target, or one of another kind. */
  lemma FoundIsTargetOrForeign(ctx: Context, target: ResourceKey)
    requires ctx.resources.Valid()
    ensures
      var found := FindResource(ctx, target);
      found.Some? ==> found.value in ctx.resources.entries && (found.value == target || found.value.kind != target.kind)
  {
  }

  lemma DeliverKeeps(codec: Codec, ops: seq<Op>, ctx: Context, e: Envelope, idx: nat, ts: int)
    requires Inv(codec, ops, ctx)
    ensures Inv(codec, ops + [Deliver(e, idx, ts)], ApplyEnvelope(codec, ctx, e, idx, ts))
  {
    var op := Deliver(e, idx, ts);
    var target := ResourceKey(TargetKind(codec, e), e.channel);
    FoundIsTargetOrForeign(ctx, target);
    var found := FindResource(ctx, target);
    var ctx' := ApplyEnvelope(codec, ctx, e, idx, ts);
    forall k | k in ctx'.resources.entries ensures Sound(codec, ops + [op], k, ctx'.resources.entries[k]) {
      if found == Some(k) {
        ReceiveKeeps(codec, ops, k, ctx.resources.entries[k], e, idx, ts);
      } else {
        SoundGrows(codec, ops, op, k, ctx.resources.entries[k]);
      }
    }
  }

  lemma InstallKeeps(codec: Codec, ops: seq<Op>, ctx: Context, s: Snapshot, idx: nat)
    requires Inv(codec, ops, ctx)
    ensures Inv(codec, ops + [Install(s, idx)], InstallSnapshot(codec, ctx, s, idx))
  {
    var op := Install(s, idx);
    var key := ResourceKey(SnapshotKind(codec, s), s.resource);
    var ctx' := InstallSnapshot(codec, ctx, s, idx);
    forall k | k in ctx'.resources.entries ensures Sound(codec, ops + [op], k, ctx'.resources.entries[k]) {
      if k == key {
        NewBaseline(codec, ops, op, ctx'.resources.entries[k]);
      } else {
        SoundGrows(codec, ops, op, k, ctx.resources.entries[k]);
      }
    }
  }

  /** A resource fresh from its snapshot. */
  lemma NewBaseline(codec: Codec, ops: seq<Op>, op: Op, r: Resource)
    requires op.Install? && Installs(codec, op, r.key) && r.state == op.snapshot.state
    requires r.baselineFromSeq == op.snapshot.fromSeq && r.lastServerSeq == Some(op.snapshot.fromSeq)
    requires r.baselineEventIdx == r.lastAppliedEventIdx == op.idx
    ensures Accounted(codec, ops + [op], r, |ops|, [])
  {
    assert (ops + [op])[|ops|] == op;
  }

  lemma DoKeeps(codec: Codec, ops: seq<Op>, ctx: Context, op: Op)
    requires Inv(codec, ops, ctx)
    ensures Inv(codec, ops + [op], Do(codec, ctx, op))
  {
    match op
    case Deliver(e, idx, ts) => DeliverKeeps(codec, ops, ctx, e, idx, ts);
    case Install(s, idx) => InstallKeeps(codec, ops, ctx, s, idx);
    case _ =>
      forall k | k in ctx.resources.entries ensures Sound(codec, ops + [op], k, ctx.resources.entries[k]) {
        SoundGrows(codec, ops, op, k, ctx.resources.entries[k]);
      }
  }

  lemma {:induction false} PerformKeeps(codec: Codec, before: seq<Op>, ctx: Context, ops: seq<Op>)
    requires Inv(codec, before, ctx)
    ensures Inv(codec, before + ops, Perform(codec, ctx, ops))
    decreases |ops|
  {
    if |ops| == 0 {
      assert before + ops == before;
    } else {
      var front, last := ops[..|ops| - 1], ops[|ops| - 1];
      PerformKeeps(codec, before, ctx, front);
      DoKeeps(codec, before + front, Perform(codec, ctx, front), last);
      assert before + ops == before + front + [last];
    }
  }

  /** All elementary effects of the first `n` events, in order. */
  function Trace(codec: Codec, start: Context, events: seq<Input>, n: nat): seq<Op>
    requires n <= |events|
  {
    if n == 0 then []
    else
      var ctx := ProcessEvents(codec, start, events, n - 1);
      Trace(codec, start, events, n - 1) + OpsOf(ctx.requests, events[n - 1], n - 1)
  }

  lemma {:induction false} ProcessEventsKeeps(codec: Codec, start: Context, events: seq<Input>, n: nat)
    requires n <= |events| && start.resources == Empty()
    ensures Inv(codec, Trace(codec, start, events, n), ProcessEvents(codec, start, events, n))
    decreases n
  {
    if n > 0 {
      var ctx := ProcessEvents(codec, start, events, n - 1);
      ProcessEventsKeeps(codec, start, events, n - 1);
      PerformKeeps(codec, Trace(codec, start, events, n - 1), ctx, OpsOf(ctx.requests, events[n - 1], n - 1));
    }
  }

  /** After any log: a resource is complete exactly when it has no diagnostics; then its state is its last
      baseline reduced by its own kind's reducer over everything addressed to it since, numbered exactly from
      the one after the baseline to the last. For a resource that is not complete the same holds with possible
      gaps. It is filed under its own key. */
  lemma CompleteIsSound(codec: Codec, events: seq<Input>, n: nat, key: ResourceKey) returns (m: nat, es: seq<nat>)
    requires n <= |events| && key in ProcessEvents(codec, EMPTY, events, n).resources.entries
    ensures
      var ops := Trace(codec, EMPTY, events, n);
      var r := ProcessEvents(codec, EMPTY, events, n).resources.entries[key];
      && r.key == key
      && (r.confidence == Complete <==> r.diagnostics == [])
      && Explained(codec, ops, r, m, es)
      && NothingElse(codec, ops, r, m, es)
  {
    ProcessEventsKeeps(codec, EMPTY, events, n);
    var ops := Trace(codec, EMPTY, events, n);
    var r := ProcessEvents(codec, EMPTY, events, n).resources.entries[key];
    assert Sound(codec, ops, key, r);
    m, es :| Accounted(codec, ops, r, m, es);
  }

  // ---------- delivering again ----------

  /** Two contexts with the same resources, up to what the event order and clock leave open: diagnostics,
      confidence, event indexes, remembered requests, and whatever `rel` ignores in a state. */
  ghost predicate Alike(rel: (Json, Json) -> bool, a: Context, b: Context) {
    && a.resources.order == b.resources.order
    && (forall k :: k in a.resources.entries <==> k in b.resources.entries)
    && (forall k :: k in a.resources.entries ==> AlikeResource(rel, a.resources.entries[k], b.resources.entries[k]))
    && a.intents == b.intents
  }

  ghost predicate AlikeResource(rel: (Json, Json) -> bool, r: Resource, s: Resource) {
    r.key == s.key && r.lastServerSeq == s.lastServerSeq && r.baselineFromSeq == s.baselineFromSeq && rel(r.state, s.state)
  }

  /** `rel` is an equivalence that every reducer respects, at whatever times it runs: equality when no
      reducer looks at the clock, equality up to event-time fields in general. */
  ghost predicate Respected(codec: Codec, rel: (Json, Json) -> bool) {
    && (forall s :: rel(s, s))
    && (forall s, t, u :: Chains(rel, s, t, u))
    && (forall kind, s, t, action, time, time' :: ReducesAlike(codec, rel, kind, s, t, action, time, time'))
  }

  ghost predicate Chains(rel: (Json, Json) -> bool, s: Json, t: Json, u: Json) {
    rel(s, t) && rel(t, u) ==> rel(s, u)
  }

  ghost predicate ReducesAlike(
      codec: Codec, rel: (Json, Json) -> bool, kind: Kind, s: Json, t: Json, action: Json, time: int, time': int) {
    rel(s, t) ==> rel(codec.reduce(kind, s, action, time).state, codec.reduce(kind, t, action, time').state)
  }

  predicate Rejected(e: Envelope) {
    e.rejection.Some? && e.rejection.value != ""
  }

  /** Delivering `e` (again) would change no state. */
  ghost predicate Spent(codec: Codec, ctx: Context, e: Envelope) {
    var found := FindResource(ctx, ResourceKey(TargetKind(codec, e), e.channel));
    || found.None?
    || found.value !in ctx.resources.entries
    || Rejected(e)
    || (ctx.resources.entries[found.value].lastServerSeq.Some? && e.serverSeq <= ctx.resources.entries[found.value].lastServerSeq.value)
  }

  ghost predicate Filed(ctx: Context) {
    ctx.resources.Valid() && forall k :: k in ctx.resources.entries ==> ctx.resources.entries[k].key == k
  }

  lemma ReceiveFields(codec: Codec, r: Resource, e: Envelope, idx: nat, ts: int)
    ensures
      var r' := Receive(codec, r, e, idx, ts);
      var kind := TargetKind(codec, e);
      && r'.key == r.key && r'.baselineFromSeq == r.baselineFromSeq
      && r'.lastServerSeq == (if Applies(r, e) then Some(e.serverSeq) else r.lastServerSeq)
      && r'.state == (if Applies(r, e) && kind != UnknownKind && r.key.kind == kind then codec.reduce(kind, r.state, e.action, ts).state else r.state)
  {
  }

  /** Delivering never adds, removes or reorders resources. */
  lemma DeliverFrame(codec: Codec, ctx: Context, e: Envelope, idx: nat, ts: int)
    requires Filed(ctx)
    ensures
      var ctx' := ApplyEnvelope(codec, ctx, e, idx, ts);
      && Filed(ctx') && ctx'.resources.order == ctx.resources.order
      && (forall k :: k in ctx'.resources.entries <==> k in ctx.resources.entries)
      && (forall k :: k in ctx.resources.entries && FindResource(ctx, ResourceKey(TargetKind(codec, e), e.channel)) != Some(k)
            ==> ctx'.resources.entries[k] == ctx.resources.entries[k])
  {
  }

  lemma DeliverSpends(codec: Codec, ctx: Context, e: Envelope, idx: nat, ts: int)
    requires Filed(ctx)
    ensures Spent(codec, ApplyEnvelope(codec, ctx, e, idx, ts), e)
  {
    DeliverFrame(codec, ctx, e, idx, ts);
    var found := FindResource(ctx, ResourceKey(TargetKind(codec, e), e.channel));
    if found.Some? && found.value in ctx.resources.entries {
      ReceiveFields(codec, ctx.resources.entries[found.value], e, idx, ts);
    }
  }

  /** Sequence numbers only grow, so what is spent stays spent. */
  lemma SpentStays(codec: Codec, ctx: Context, spent: Envelope, e: Envelope, idx: nat, ts: int)
    requires Filed(ctx) && Spent(codec, ctx, spent)
    ensures Spent(codec, ApplyEnvelope(codec, ctx, e, idx, ts), spent)
  {
    DeliverFrame(codec, ctx, e, idx, ts);
    var found := FindResource(ctx, ResourceKey(TargetKind(codec, e), e.channel));
    if found.Some? && found.value in ctx.resources.entries {
      ReceiveFields(codec, ctx.resources.entries[found.value], e, idx, ts);
    }
  }

  lemma SpentIsIdle(codec: Codec, rel: (Json, Json) -> bool, ctx: Context, e: Envelope, idx: nat, ts: int)
    requires Filed(ctx) && Spent(codec, ctx, e) && Respected(codec, rel)
    ensures Alike(rel, ctx, ApplyEnvelope(codec, ctx, e, idx, ts))
  {
    DeliverFrame(codec, ctx, e, idx, ts);
    var found := FindResource(ctx, ResourceKey(TargetKind(codec, e), e.channel));
    if found.Some? && found.value in ctx.resources.entries {
      ReceiveFields(codec, ctx.resources.entries[found.value], e, idx, ts);
    }
  }

  lemma ReceiveAlike(codec: Codec, rel: (Json, Json) -> bool, r: Resource, s: Resource, e: Envelope, i: nat, t: int, j: nat, u: int)
    requires AlikeResource(rel, r, s) && Respected(codec, rel)
    ensures AlikeResource(rel, Receive(codec, r, e, i, t), Receive(codec, s, e, j, u)) && Applies(r, e) == Applies(s, e)
  {
    ReceiveFields(codec, r, e, i, t);
    ReceiveFields(codec, s, e, j, u);
    assert ReducesAlike(codec, rel, TargetKind(codec, e), r.state, s.state, e.action, t, u);
  }

  /** Alike contexts stay alike under the same envelope, whenever it is delivered. */
  lemma DeliverAlike(codec: Codec, rel: (Json, Json) -> bool, a: Context, b: Context, e: Envelope, i: nat, t: int, j: nat, u: int)
    requires Filed(a) && Filed(b) && Alike(rel, a, b) && Respected(codec, rel)
    ensures Alike(rel, ApplyEnvelope(codec, a, e, i, t), ApplyEnvelope(codec, b, e, j, u))
  {
    DeliverFrame(codec, a, e, i, t);
    DeliverFrame(codec, b, e, j, u);
    var found := FindResource(a, ResourceKey(TargetKind(codec, e), e.channel));
    if found.Some? && found.value in a.resources.entries {
      ReceiveAlike(codec, rel, a.resources.entries[found.value], b.resources.entries[found.value], e, i, t, j, u);
    }
  }

  lemma AlikeTransitive(codec: Codec, rel: (Json, Json) -> bool, a: Context, b: Context, c: Context)
    requires Alike(rel, a, b) && Alike(rel, b, c) && Respected(codec, rel)
    ensures Alike(rel, a, c)
  {
    forall k | k in a.resources.entries ensures AlikeResource(rel, a.resources.entries[k], c.resources.entries[k]) {
      assert Chains(rel, a.resources.entries[k].state, b.resources.entries[k].state, c.resources.entries[k].state);
    }
  }

  // ---------- reconnecting ----------

  ghost predicate AllDeliver(ops: seq<Op>) {
    forall i :: 0 <= i < |ops| ==> ops[i].Deliver?
  }

  /** The same envelopes, at whatever indexes and times. */
  ghost predicate SameEnvelopes(a: seq<Op>, b: seq<Op>) {
    AllDeliver(a) && AllDeliver(b) && |a| == |b| && forall i :: 0 <= i < |a| ==> a[i].envelope == b[i].envelope
  }

  lemma {:induction false} PerformConcat(codec: Codec, ctx: Context, a: seq<Op>, b: seq<Op>)
    ensures Perform(codec, ctx, a + b) == Perform(codec, Perform(codec, ctx, a), b)
    decreases |b|
  {
    if |b| == 0 {
      assert a + b == a;
    } else {
      var front := b[..|b| - 1];
      assert (a + b)[..|a + b| - 1] == a + front;
      PerformConcat(codec, ctx, a, front);
    }
  }

  /** Everything delivered is spent. */
  lemma {:induction false} DeliveredIsSpent(codec: Codec, ctx: Context, ops: seq<Op>)
    requires Filed(ctx) && AllDeliver(ops)
    ensures Filed(Perform(codec, ctx, ops))
    ensures forall i :: 0 <= i < |ops| ==> Spent(codec, Perform(codec, ctx, ops), ops[i].envelope)
    decreases |ops|
  {
    if |ops| > 0 {
      var front, last := ops[..|ops| - 1], ops[|ops| - 1];
      var before := Perform(codec, ctx, front);
      DeliveredIsSpent(codec, ctx, front);
      DeliverFrame(codec, before, last.envelope, last.idx, last.ts);
      forall i | 0 <= i < |ops| ensures Spent(codec, Perform(codec, ctx, ops), ops[i].envelope) {
        if i < |front| {
          assert front[i] == ops[i];
          SpentStays(codec, before, ops[i].envelope, last.envelope, last.idx, last.ts);
        } else {
          DeliverSpends(codec, before, last.envelope, last.idx, last.ts);
        }
      }
    }
  }

  /** Delivering only spent envelopes changes nothing that matters. */
  lemma {:induction false} SpentRunIsIdle(codec: Codec, rel: (Json, Json) -> bool, ctx: Context, ops: seq<Op>)
    requires Filed(ctx) && AllDeliver(ops) && Respected(codec, rel)
    requires forall i :: 0 <= i < |ops| ==> Spent(codec, ctx, ops[i].envelope)
    ensures Filed(Perform(codec, ctx, ops)) && Alike(rel, ctx, Perform(codec, ctx, ops))
    ensures forall e :: Spent(codec, ctx, e) ==> Spent(codec, Perform(codec, ctx, ops), e)
    decreases |ops|
  {
    if |ops| > 0 {
      var front, last := ops[..|ops| - 1], ops[|ops| - 1];
      var before := Perform(codec, ctx, front);
      SpentRunIsIdle(codec, rel, ctx, front);
      DeliverFrame(codec, before, last.envelope, last.idx, last.ts);
      SpentIsIdle(codec, rel, before, last.envelope, last.idx, last.ts);
      AlikeTransitive(codec, rel, ctx, before, Perform(codec, ctx, ops));
      forall e | Spent(codec, ctx, e) ensures Spent(codec, Perform(codec, ctx, ops), e) {
        SpentStays(codec, before, e, last.envelope, last.idx, last.ts);
      }
    }
  }

  lemma {:induction false} SameEnvelopesAlike(codec: Codec, rel: (Json, Json) -> bool, a: Context, b: Context, x: seq<Op>, y: seq<Op>)
    requires Filed(a) && Filed(b) && Alike(rel, a, b) && SameEnvelopes(x, y) && Respected(codec, rel)
    ensures Alike(rel, Perform(codec, a, x), Perform(codec, b, y))
    ensures Filed(Perform(codec, a, x)) && Filed(Perform(codec, b, y))
    decreases |x|
  {
    if |x| > 0 {
      var p, q := x[|x| - 1], y[|y| - 1];
      var a', b' := Perform(codec, a, x[..|x| - 1]), Perform(codec, b, y[..|y| - 1]);
      SameEnvelopesAlike(codec, rel, a, b, x[..|x| - 1], y[..|y| - 1]);
      DeliverFrame(codec, a', p.envelope, p.idx, p.ts);
      DeliverFrame(codec, b', q.envelope, q.idx, q.ts);
      DeliverAlike(codec, rel, a', b', p.envelope, p.idx, p.ts, q.idx, q.ts);
    }
  }

  /** Delivering a log live, or live up to `k` and then again from some `j <= k` on, comes to the same. The
      sequence numbers need not even be increasing. */
  lemma OverlapIsHarmless(codec: Codec, rel: (Json, Json) -> bool, ctx: Context, ctx': Context, live: seq<Op>, again: seq<Op>, j: nat, k: nat)
    requires Filed(ctx) && Filed(ctx') && Respected(codec, rel)
    requires j <= k <= |live| && AllDeliver(live) && SameEnvelopes(live[j..], again)
    requires Alike(rel, Perform(codec, ctx, live[..k]), ctx')
    requires forall i :: 0 <= i < k ==> Spent(codec, ctx', live[i].envelope)
    ensures Alike(rel, Perform(codec, ctx, live), Perform(codec, ctx', again))
  {
    var old_, new_ := again[..k - j], again[k - j..];
    OverlapSplits(live, again, j, k);
    PerformConcat(codec, ctx', old_, new_);
    PerformConcat(codec, ctx, live[..k], live[k..]);
    forall i | 0 <= i < |old_| ensures Spent(codec, ctx', old_[i].envelope) {
      assert live[j..k][i] == live[j + i];
    }
    var met := Perform(codec, ctx, live[..k]);
    SpentRunIsIdle(codec, rel, ctx', old_);
    DeliveredIsSpent(codec, ctx, live[..k]);
    Reunite(codec, rel, met, ctx', Perform(codec, ctx', old_), live[k..], new_);
  }

  /** What is delivered again splits into what was seen before the cut and what comes after it. */
  lemma OverlapSplits(live: seq<Op>, again: seq<Op>, j: nat, k: nat)
    requires j <= k <= |live| && AllDeliver(live) && SameEnvelopes(live[j..], again)
    ensures |again| == |live| - j && again == again[..k - j] + again[k - j..] && live == live[..k] + live[k..]
    ensures AllDeliver(again[..k - j]) && AllDeliver(live[..k])
    ensures SameEnvelopes(live[j..k], again[..k - j]) && SameEnvelopes(live[k..], again[k - j..])
  {
    assert live[j..][..k - j] == live[j..k];
    forall i | 0 <= i < |again| - (k - j) ensures live[k..][i].envelope == again[k - j..][i].envelope {
      assert live[j..][k - j + i] == live[k + i];
    }
  }

  lemma Reunite(codec: Codec, rel: (Json, Json) -> bool, met: Context, start: Context, ctx: Context, a: seq<Op>, b: seq<Op>)
    requires Filed(met) && Filed(ctx) && Respected(codec, rel)
    requires Alike(rel, met, start) && Alike(rel, start, ctx) && SameEnvelopes(a, b)
    ensures Alike(rel, Perform(codec, met, a), Perform(codec, ctx, b))
  {
    AlikeTransitive(codec, rel, met, start, ctx);
    SameEnvelopesAlike(codec, rel, met, ctx, a, b);
  }

  // ---------- the same, told in events ----------

  /** Events processed after `ctx`, the first at index `base`. */
  function ProcessFrom(codec: Codec, ctx: Context, events: seq<Input>, base: nat): Context {
    if |events| == 0 then ctx
    else ProcessEvent(codec, ProcessFrom(codec, ctx, events[..|events| - 1], base), events[|events| - 1], base + |events| - 1)
  }

  /** Live traffic: every event carries an envelope. */
  ghost predicate AllLive(events: seq<Input>) {
    forall i :: 0 <= i < |events| ==> events[i].ActionInput? && events[i].envelope.Some?
  }

  predicate LiveAs(event: Input, op: Op, idx: nat) {
    event.ActionInput? && event.envelope.Some? && op == Deliver(event.envelope.value, idx, event.ts)
  }

  ghost predicate AllLiveAs(events: seq<Input>, ops: seq<Op>, base: nat) {
    |events| == |ops| && forall i :: 0 <= i < |events| ==> LiveAs(events[i], ops[i], base + i)
  }

  function LiveOps(events: seq<Input>, base: nat): (ops: seq<Op>)
    requires AllLive(events)
    ensures AllLiveAs(events, ops, base)
    decreases |events|
  {
    if |events| == 0 then []
    else
      var n := |events| - 1;
      LiveOps(events[..n], base) + [Deliver(events[n].envelope.value, base + n, events[n].ts)]
  }

  lemma PerformOne(codec: Codec, ctx: Context, op: Op)
    ensures Perform(codec, ctx, [op]) == Do(codec, ctx, op)
  {
    assert [op][..0] == [] && Perform(codec, ctx, []) == ctx;
  }

  lemma LiveEventDelivers(codec: Codec, ctx: Context, event: Input, op: Op, idx: nat)
    requires LiveAs(event, op, idx)
    ensures ProcessEvent(codec, ctx, event, idx) == Do(codec, ctx, op)
  {
    PerformOne(codec, ctx, op);
  }

  lemma ProcessFromUnfolds(codec: Codec, ctx: Context, events: seq<Input>, base: nat)
    requires |events| > 0
    ensures ProcessFrom(codec, ctx, events, base)
         == ProcessEvent(codec, ProcessFrom(codec, ctx, events[..|events| - 1], base), events[|events| - 1], base + |events| - 1)
  {
  }

  lemma PerformUnfolds(codec: Codec, ctx: Context, ops: seq<Op>)
    requires |ops| > 0
    ensures Perform(codec, ctx, ops) == Do(codec, Perform(codec, ctx, ops[..|ops| - 1]), ops[|ops| - 1])
  {
  }

  lemma {:induction false} LiveEventsDeliver(codec: Codec, ctx: Context, events: seq<Input>, ops: seq<Op>, base: nat)
    requires AllLiveAs(events, ops, base)
    ensures ProcessFrom(codec, ctx, events, base) == Perform(codec, ctx, ops)
    decreases |events|
  {
    if |events| > 0 {
      var n := |events| - 1;
      assert LiveAs(events[n], ops[n], base + n);
      LiveEventsDeliver(codec, ctx, events[..n], ops[..n], base);
      LiveEventDelivers(codec, Perform(codec, ctx, ops[..n]), events[n], ops[n], base + n);
      ProcessFromUnfolds(codec, ctx, events, base);
      PerformUnfolds(codec, ctx, ops);
    }
  }

  /** A reconnect answer that lists the envelopes of live traffic from `j` on. */
  ghost predicate Repeats(actions: seq<Option<Envelope>>, events: seq<Input>, j: nat) {
    j + |actions| == |events| && forall i :: 0 <= i < |actions| ==> events[j + i].ActionInput? && actions[i] == events[j + i].envelope
  }

  ghost predicate RepeatsOps(actions: seq<Option<Envelope>>, live: seq<Op>, j: nat) {
    j + |actions| == |live| && forall i :: 0 <= i < |actions| ==> live[j + i].Deliver? && actions[i] == Some(live[j + i].envelope)
  }

  lemma {:induction false} DeliverOpsAre(actions: seq<Option<Envelope>>, idx: nat, ts: int)
    ensures
      var ops := DeliverOps(actions, idx, ts);
      |ops| == |actions| && forall i :: 0 <= i < |ops| ==> ops[i] == DeliverOp(actions[i], idx, ts)
    decreases |actions|
  {
    if |actions| > 0 { DeliverOpsAre(actions[1..], idx, ts); }
  }

  lemma AgainIsSame(actions: seq<Option<Envelope>>, live: seq<Op>, j: nat, idx: nat, ts: int)
    requires AllDeliver(live) && j <= |live| && RepeatsOps(actions, live, j)
    ensures SameEnvelopes(live[j..], DeliverOps(actions, idx, ts))
  {
    DeliverOpsAre(actions, idx, ts);
  }

  lemma {:induction false} NotesAreIdle(codec: Codec, rel: (Json, Json) -> bool, ctx: Context, n: nat, idx: nat)
    requires Filed(ctx) && Respected(codec, rel)
    ensures var ctx' := Perform(codec, ctx, MissingOps(n, idx)); ctx'.resources == ctx.resources && ctx'.intents == ctx.intents
    decreases n
  {
    if n > 0 {
      var note := Note(Diagnostic(ReconnectMissingResource, Warning, idx));
      PerformConcat(codec, ctx, [note], MissingOps(n - 1, idx));
      PerformOne(codec, ctx, note);
      NotesAreIdle(codec, rel, AddDiagnostic(ctx, note.diagnostic), n - 1, idx);
    }
  }

  /** The client asks to reconnect, at event `idx`, and is answered by the next event. */
  function AfterReconnect(codec: Codec, cut: Context, idx: nat, key: Key, result: Result, ts: int): Context {
    var asked := ProcessEvent(codec, cut, RequestInput(key, Some("reconnect")), idx);
    ProcessEvent(codec, asked, ResponseInput(key, Some(result), ts), idx + 1)
  }

  /** A client that saw live traffic up to `k`, reconnects and is replayed everything from some `j <= k` on
      ends with the resources of a client that saw it all live: same states (up to event times), same
      sequence numbers, same order, same accepted intents. */
  lemma ReconnectOverlapIsHarmless(
      codec: Codec, rel: (Json, Json) -> bool, ctx: Context, events: seq<Input>, base: nat, all: Context, cut: Context, resumed: Context,
      idx: nat, j: nat, k: nat, key: Key, missing: nat, actions: seq<Option<Envelope>>, result: Result, ts: int)
    requires Filed(ctx) && Respected(codec, rel) && AllLive(events) && j <= k <= |events| && idx == base + k
    requires all == ProcessFrom(codec, ctx, events, base) && cut == ProcessFrom(codec, ctx, events[..k], base)
    requires Repeats(actions, events, j) && result.reconnect == ReconnectReplay(missing, Some(actions))
    requires resumed == AfterReconnect(codec, cut, idx, key, result, ts)
    ensures Alike(rel, all, resumed)
  {
    var live := LiveTraffic(codec, ctx, events, base, all, cut, k, actions, j);
    ReconnectFromCut(codec, rel, ctx, all, cut, resumed, live, actions, idx, j, k, key, missing, result, ts);
  }

  /** Live traffic as deliveries: all of it, up to the cut, and as a reconnect answer repeats it. */
  lemma LiveTraffic(
      codec: Codec, ctx: Context, events: seq<Input>, base: nat, all: Context, cut: Context, k: nat, actions: seq<Option<Envelope>>, j: nat)
    returns (live: seq<Op>)
    requires AllLive(events) && k <= |events| && Repeats(actions, events, j)
    requires all == ProcessFrom(codec, ctx, events, base) && cut == ProcessFrom(codec, ctx, events[..k], base)
    ensures |live| == |events| && AllDeliver(live) && RepeatsOps(actions, live, j)
    ensures all == Perform(codec, ctx, live) && cut == Perform(codec, ctx, live[..k])
  {
    live := LiveOps(events, base);
    LiveEventsDeliver(codec, ctx, events, live, base);
    LiveEventsDeliver(codec, ctx, events[..k], live[..k], base);
    assert forall i :: 0 <= i < |live| ==> LiveAs(events[i], live[i], base + i);
  }

  lemma ReconnectFromCut(
      codec: Codec, rel: (Json, Json) -> bool, ctx: Context, all: Context, cut: Context, resumed: Context, live: seq<Op>,
      actions: seq<Option<Envelope>>, idx: nat, j: nat, k: nat, key: Key, missing: nat, result: Result, ts: int)
    requires Filed(ctx) && Respected(codec, rel) && j <= k <= |live| && AllDeliver(live) && RepeatsOps(actions, live, j)
    requires result.reconnect == ReconnectReplay(missing, Some(actions))
    requires all == Perform(codec, ctx, live) && cut == Perform(codec, ctx, live[..k])
    requires resumed == AfterReconnect(codec, cut, idx, key, result, ts)
    ensures Alike(rel, all, resumed)
  {
    DeliveredIsSpent(codec, ctx, live[..k]);
    AgainIsSame(actions, live, j, idx + 1, ts);
    var noted := ResumeUnfolds(codec, rel, cut, idx, key, missing, actions, result, ts);
    ResumeAfterCut(codec, rel, ctx, cut, noted, live, DeliverOps(actions, idx + 1, ts), j, k);
  }

  /** From the cut, up to notes, the replayed deliveries lead where the live ones do. */
  lemma ResumeAfterCut(
      codec: Codec, rel: (Json, Json) -> bool, ctx: Context, cut: Context, noted: Context, live: seq<Op>, again: seq<Op>, j: nat, k: nat)
    requires Filed(ctx) && Filed(cut) && Respected(codec, rel) && j <= k <= |live| && AllDeliver(live)
    requires SameEnvelopes(live[j..], again) && cut == Perform(codec, ctx, live[..k])
    requires forall i :: 0 <= i < k ==> Spent(codec, cut, live[..k][i].envelope)
    requires noted.resources == cut.resources && noted.intents == cut.intents
    ensures Alike(rel, Perform(codec, ctx, live), Perform(codec, noted, again))
  {
    SameResourcesAlike(codec, rel, cut, noted);
    forall i | 0 <= i < k ensures Spent(codec, noted, live[i].envelope) {
      SpentByResources(codec, cut, noted, live[..k][i].envelope);
    }
    OverlapIsHarmless(codec, rel, ctx, noted, live, again, j, k);
  }

  lemma SameResourcesAlike(codec: Codec, rel: (Json, Json) -> bool, a: Context, b: Context)
    requires a.resources == b.resources && a.intents == b.intents && Respected(codec, rel)
    ensures Alike(rel, a, b) && (Filed(a) <==> Filed(b))
  {
  }

  lemma ReconnectMethod(result: Result, idx: nat, ts: int)
    ensures ResponseOps(Some("reconnect"), result, idx, ts) == ReconnectOps(result.reconnect, idx, ts)
  {
    assert "reconnect"[2] != "initialize"[2] && "reconnect"[0] != "subscribe"[0];
  }

  /** A reconnect request and its answer: notes that touch no resource, then the replayed deliveries. */
  lemma ResumeUnfolds(
      codec: Codec, rel: (Json, Json) -> bool, cut: Context, idx: nat, key: Key, missing: nat, actions: seq<Option<Envelope>>, result: Result, ts: int)
    returns (noted: Context)
    requires Filed(cut) && Respected(codec, rel) && result.reconnect == ReconnectReplay(missing, Some(actions))
    ensures noted.resources == cut.resources && noted.intents == cut.intents
    ensures AfterReconnect(codec, cut, idx, key, result, ts) == Perform(codec, noted, DeliverOps(actions, idx + 1, ts))
  {
    var request := RequestContext(Some("reconnect"), idx);
    var asked := cut.(requests := cut.requests[key := request]);
    PerformOne(codec, cut, Remember(key, request));
    ReconnectMethod(result, idx + 1, ts);
    PerformConcat(codec, asked, MissingOps(missing, idx + 1), DeliverOps(actions, idx + 1, ts));
    NotesAreIdle(codec, rel, asked, missing, idx + 1);
    noted := Perform(codec, asked, MissingOps(missing, idx + 1));
  }

  lemma SpentByResources(codec: Codec, a: Context, b: Context, e: Envelope)
    requires Spent(codec, a, e) && a.resources == b.resources
    ensures Spent(codec, b, e)
  {
  }

  /** Every context a log leads to is filed. */
  lemma ReachableIsFiled(codec: Codec, events: seq<Input>, n: nat)
    requires n <= |events|
    ensures Filed(ProcessEvents(codec, EMPTY, events, n))
  {
    ProcessEventsKeeps(codec, EMPTY, events, n);
    var entries := ProcessEvents(codec, EMPTY, events, n).resources.entries;
    assert forall k :: k in entries ==> Sound(codec, Trace(codec, EMPTY, events, n), k, entries[k]);
  }
}
