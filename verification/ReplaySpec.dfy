/** Rebuilding resource state from a log: a fold of decoded events over a context of resources. */
module ReplaySpec {
  import opened Collections
  import opened Events

  const ROOT_RESOURCE: string := "agenthost:/root"

  datatype Kind =
    | RootKind | SessionKind | ChatKind | TerminalKind | ChangesetKind | AnnotationsKind
    | ResourceWatchKind | AutomationKind | AutomationRunKind | UnknownKind

  /** A JSON value whose inside does not matter here. */
  datatype Json = Json(token: int)

  datatype ResourceKey = ResourceKey(kind: Kind, uri: string)

  datatype Code =
    | InvalidTargetIndex | MissingBaseline | ParseFailure | UnknownSnapshot | UnknownAction | MalformedEnvelope
    | ServerSeqGap | ServerSeqDuplicate | ServerSeqOutOfOrder | IgnoredClientIntent | ReconnectMissingResource | ScopeCreepBlocked

  datatype Severity = Info | Warning

  datatype Diagnostic = Diagnostic(code: Code, severity: Severity, eventIdx: int)

  datatype Confidence = Complete | Partial | Unknown

  datatype Resource = Resource(
    key: ResourceKey, state: Json, baselineEventIdx: nat, lastAppliedEventIdx: nat,
    baselineFromSeq: int, lastServerSeq: Option<int>, confidence: Confidence, diagnostics: seq<Diagnostic>)

  datatype Intent = Intent(
    eventIdx: nat, ts: int, clientSeq: Option<int>, actionType: Option<string>, target: Option<ResourceKey>,
    acceptedByServerSeq: Option<int>)

  datatype Snapshot = Snapshot(resource: string, state: Json, fromSeq: int)

  /** `rejection` is absent, or the reason given; `clientSeq` that of a well-formed origin. */
  datatype Envelope = Envelope(
    channel: string, actionType: string, action: Json, serverSeq: int, clientSeq: Option<int>, rejection: Option<string>)

  /** What the program takes from elsewhere: which action types exist, what kind a state's shape shows, and
      one reducer per kind (`complaints` counts the messages it logs). Historical sessions use the time of
      the event. */
  datatype Reduced = Reduced(state: Json, complaints: nat)

  datatype Codec = Codec(
    knownActions: set<string>,
    kindOfShape: Json -> Kind,
    reduce: (Kind, Json, Json, int) -> Reduced)

  // ---------- keys and kinds ----------

  function KindName(k: Kind): string {
    match k
    case RootKind => "root" case SessionKind => "session" case ChatKind => "chat" case TerminalKind => "terminal"
    case ChangesetKind => "changeset" case AnnotationsKind => "annotations" case ResourceWatchKind => "resource-watch"
    case AutomationKind => "automation" case AutomationRunKind => "automation-run" case UnknownKind => "unknown"
  }

  /** The text under which a resource is filed. It determines the key (`MapKeyInjective`), so the model
      files resources under the key itself. */
  function ResourceMapKey(key: ResourceKey): string {
    KindName(key.kind) + ":" + key.uri
  }

  predicate StartsWith(s: string, prefix: string) {
    prefix <= s
  }

  function KindOfType(t: string): Kind {
    if StartsWith(t, "root/") then RootKind
    else if StartsWith(t, "session/") then SessionKind
    else if StartsWith(t, "chat/") then ChatKind
    else if StartsWith(t, "terminal/") then TerminalKind
    else if StartsWith(t, "changeset/") then ChangesetKind
    else if StartsWith(t, "annotations/") then AnnotationsKind
    else if StartsWith(t, "resourceWatch/") then ResourceWatchKind
    else if StartsWith(t, "automationRun/") then AutomationRunKind
    else if StartsWith(t, "automation/") then AutomationKind
    else UnknownKind
  }

  /** The kind an envelope aims at; unknown for an action type that does not exist. */
  function TargetKind(codec: Codec, e: Envelope): Kind {
    if e.actionType in codec.knownActions then KindOfType(e.actionType) else UnknownKind
  }

  function SnapshotKind(codec: Codec, s: Snapshot): Kind {
    if s.resource == ROOT_RESOURCE then RootKind else codec.kindOfShape(s.state)
  }

  // ---------- the context ----------

  datatype RequestContext = RequestContext(method_: Option<string>, eventIdx: nat)

  datatype Context = Context(
    resources: OMap<ResourceKey, Resource>, requests: map<Key, RequestContext>,
    intents: seq<Intent>, diagnostics: seq<Diagnostic>)

  const EMPTY := Context(Empty(), map[], [], [])

  function AddDiagnostic(ctx: Context, d: Diagnostic): Context {
    ctx.(diagnostics := ctx.diagnostics + [d])
  }

  function WithDiagnostic(r: Resource, d: Diagnostic): Resource {
    r.(diagnostics := r.diagnostics + [d], confidence := if d.severity != Info then Partial else r.confidence)
  }

  function AddResourceDiagnostic(ctx: Context, key: ResourceKey, d: Diagnostic): Context
    requires key in ctx.resources.entries
  {
    AddDiagnostic(SetResource(ctx, key, WithDiagnostic(ctx.resources.entries[key], d)), d)
  }

  function SetResource(ctx: Context, key: ResourceKey, r: Resource): Context {
    ctx.(resources := ctx.resources.Set(key, r))
  }

  function InstallSnapshot(codec: Codec, ctx: Context, s: Snapshot, idx: nat): Context {
    var kind := SnapshotKind(codec, s);
    var key := ResourceKey(kind, s.resource);
    var r := Resource(key, s.state, idx, idx, s.fromSeq, Some(s.fromSeq), Complete, []);
    if kind == UnknownKind then
      var d := Diagnostic(UnknownSnapshot, Warning, idx);
      SetResource(AddDiagnostic(ctx, d), key, r.(confidence := Unknown, diagnostics := [d]))
    else SetResource(ctx, key, r)
  }

  /** The resource of exactly that key, else the first one filed under the uri. */
  function FindResource(ctx: Context, target: ResourceKey): Option<ResourceKey> {
    if target in ctx.resources.entries then Some(target) else FirstWithUri(ctx.resources.order, target.uri)
  }

  function FirstWithUri(order: seq<ResourceKey>, uri: string): (r: Option<ResourceKey>)
    ensures r.Some? ==> r.value in order && r.value.uri == uri
    ensures r.None? ==> forall k :: k in order ==> k.uri != uri
  {
    if |order| == 0 then None else if order[0].uri == uri then Some(order[0]) else FirstWithUri(order[1..], uri)
  }

  /** Whether a sequence number is to be applied, and the diagnostic it deserves. */
  function JudgeSeq(last: Option<int>, serverSeq: int): (bool, Option<Code>) {
    if last.None? || serverSeq == last.value + 1 then (true, None)
    else if serverSeq > last.value + 1 then (true, Some(ServerSeqGap))
    else (false, Some(if serverSeq == last.value then ServerSeqDuplicate else ServerSeqOutOfOrder))
  }

  /** The oldest unaccepted intent with the envelope's client sequence number becomes accepted. */
  function LinkAcceptedIntent(intents: seq<Intent>, e: Envelope): seq<Intent> {
    if e.clientSeq.None? then intents else AcceptFirst(intents, e.clientSeq, e.serverSeq)
  }

  function AcceptFirst(intents: seq<Intent>, clientSeq: Option<int>, serverSeq: int): seq<Intent> {
    if |intents| == 0 then []
    else if intents[0].clientSeq == clientSeq && intents[0].acceptedByServerSeq.None? then
      [intents[0].(acceptedByServerSeq := Some(serverSeq))] + intents[1..]
    else [intents[0]] + AcceptFirst(intents[1..], clientSeq, serverSeq)
  }

  function Complaints(r: Resource, n: nat, idx: nat): (r': Resource)
    ensures r'.key == r.key && r'.state == r.state && r'.lastServerSeq == r.lastServerSeq
    ensures r'.baselineFromSeq == r.baselineFromSeq && r'.baselineEventIdx == r.baselineEventIdx
    ensures r'.lastAppliedEventIdx == r.lastAppliedEventIdx
    ensures n == 0 ==> r' == r
    ensures n > 0 ==> r'.confidence == Partial && |r'.diagnostics| > 0
    decreases n
  {
    if n == 0 then r else Complaints(WithDiagnostic(r, Diagnostic(UnknownAction, Warning, idx)), n - 1, idx)
  }

  /** The resource after an envelope that concerns it. */
  function Receive(codec: Codec, r: Resource, e: Envelope, idx: nat, ts: int): Resource {
    var kind := TargetKind(codec, e);
    var (apply, code) := JudgeSeq(r.lastServerSeq, e.serverSeq);
    var judged := if code.Some? then WithDiagnostic(r, Diagnostic(code.value, Warning, idx)) else r;
    if e.rejection.Some? && e.rejection.value != "" then WithDiagnostic(r, Diagnostic(MalformedEnvelope, Warning, idx))
    else if !apply then judged
    else if kind == UnknownKind then
      WithDiagnostic(judged, Diagnostic(UnknownAction, Warning, idx)).(lastServerSeq := Some(e.serverSeq), confidence := Unknown)
    else if r.key.kind != kind then
      WithDiagnostic(judged, Diagnostic(ScopeCreepBlocked, Warning, idx)).(lastServerSeq := Some(e.serverSeq), confidence := Unknown)
    else
      var reduced := codec.reduce(kind, r.state, e.action, ts);
      Complaints(judged.(state := reduced.state, lastAppliedEventIdx := idx, lastServerSeq := Some(e.serverSeq)), reduced.complaints, idx)
  }

  /** The diagnostics the context collects meanwhile: those the resource collects. */
  function NewDiagnostics(before: Resource, after: Resource): seq<Diagnostic> {
    if |before.diagnostics| <= |after.diagnostics| then after.diagnostics[|before.diagnostics|..] else []
  }

  predicate Applies(r: Resource, e: Envelope) {
    !(e.rejection.Some? && e.rejection.value != "") && JudgeSeq(r.lastServerSeq, e.serverSeq).0
  }

  function ApplyEnvelope(codec: Codec, ctx: Context, e: Envelope, idx: nat, ts: int): Context {
    var found := FindResource(ctx, ResourceKey(TargetKind(codec, e), e.channel));
    if found.None? || found.value !in ctx.resources.entries then AddDiagnostic(ctx, Diagnostic(MissingBaseline, Warning, idx))
    else
      var r := ctx.resources.entries[found.value];
      var r' := Receive(codec, r, e, idx, ts);
      SetResource(ctx, found.value, r').(
        intents := if Applies(r, e) then LinkAcceptedIntent(ctx.intents, e) else ctx.intents,
        diagnostics := ctx.diagnostics + NewDiagnostics(r, r'))
  }

  // ---------- events ----------

  datatype Reconnect =
    | MalformedReconnect
    | ReconnectSnapshots(snapshots: Option<seq<Option<Snapshot>>>)
    | ReconnectReplay(missing: nat, actions: Option<seq<Option<Envelope>>>)

  /** What the decoders read from a response's result, one field per request method. */
  datatype Result = Result(
    snapshots: Option<seq<Option<Snapshot>>>, snapshot: Option<Option<Snapshot>>, reconnect: Reconnect)

  datatype Input =
    | Unparsed
    | RequestInput(key: Key, method_: Option<string>)
    | ResponseInput(key: Key, result: Option<Result>, ts: int)
    | IntentInput(ts: int, clientSeq: Option<int>, actionType: Option<string>, target: Option<ResourceKey>)
    | ActionInput(envelope: Option<Envelope>, ts: int)
    | OtherInput

  /** The elementary effects of an event, in order. */
  datatype Op =
    | Note(diagnostic: Diagnostic)
    | Remember(key: Key, request: RequestContext)
    | Install(snapshot: Snapshot, idx: nat)
    | Deliver(envelope: Envelope, idx: nat, ts: int)
    | Record(intent: Intent)

  function Malformed(idx: nat): Op {
    Note(Diagnostic(MalformedEnvelope, Warning, idx))
  }

  function InstallOp(s: Option<Snapshot>, idx: nat): Op {
    if s.Some? then Install(s.value, idx) else Malformed(idx)
  }

  function InstallOps(snapshots: seq<Option<Snapshot>>, idx: nat): (ops: seq<Op>)
    ensures |ops| == |snapshots|
  {
    if |snapshots| == 0 then [] else [InstallOp(snapshots[0], idx)] + InstallOps(snapshots[1..], idx)
  }

  function DeliverOp(e: Option<Envelope>, idx: nat, ts: int): Op {
    if e.Some? then Deliver(e.value, idx, ts) else Malformed(idx)
  }

  function DeliverOps(actions: seq<Option<Envelope>>, idx: nat, ts: int): (ops: seq<Op>)
    ensures |ops| == |actions|
  {
    if |actions| == 0 then [] else [DeliverOp(actions[0], idx, ts)] + DeliverOps(actions[1..], idx, ts)
  }

  function MissingOps(n: nat, idx: nat): seq<Op> {
    if n == 0 then [] else [Note(Diagnostic(ReconnectMissingResource, Warning, idx))] + MissingOps(n - 1, idx)
  }

  function ReconnectOps(r: Reconnect, idx: nat, ts: int): seq<Op> {
    match r
    case MalformedReconnect => [Malformed(idx)]
    case ReconnectSnapshots(snapshots) => if snapshots.Some? then InstallOps(snapshots.value, idx) else [Malformed(idx)]
    case ReconnectReplay(missing, actions) =>
      MissingOps(missing, idx) + (if actions.Some? then DeliverOps(actions.value, idx, ts) else [Malformed(idx)])
  }

  function ResponseOps(method_: Option<string>, result: Result, idx: nat, ts: int): seq<Op> {
    if method_ == Some("initialize") then
      if result.snapshots.Some? then InstallOps(result.snapshots.value, idx) else [Malformed(idx)]
    else if method_ == Some("subscribe") then
      if result.snapshot.Some? then [InstallOp(result.snapshot.value, idx)] else [Malformed(idx)]
    else if method_ == Some("reconnect") then ReconnectOps(result.reconnect, idx, ts)
    else []
  }

  function OpsOf(requests: map<Key, RequestContext>, ev: Input, idx: nat): seq<Op> {
    match ev
    case Unparsed => [Note(Diagnostic(ParseFailure, Warning, idx))]
    case RequestInput(key, method_) => [Remember(key, RequestContext(method_, idx))]
    case ResponseInput(key, result, ts) =>
      if key in requests && result.Some? then ResponseOps(requests[key].method_, result.value, idx, ts) else []
    case IntentInput(ts, clientSeq, actionType, target) =>
      [Record(Intent(idx, ts, clientSeq, actionType, target, None)), Note(Diagnostic(IgnoredClientIntent, Info, idx))]
    case ActionInput(e, ts) => [DeliverOp(e, idx, ts)]
    case OtherInput => []
  }

  function Do(codec: Codec, ctx: Context, op: Op): Context {
    match op
    case Note(d) => AddDiagnostic(ctx, d)
    case Remember(key, request) => ctx.(requests := ctx.requests[key := request])
    case Install(s, idx) => InstallSnapshot(codec, ctx, s, idx)
    case Deliver(e, idx, ts) => ApplyEnvelope(codec, ctx, e, idx, ts)
    case Record(intent) => ctx.(intents := ctx.intents + [intent])
  }

  function Perform(codec: Codec, ctx: Context, ops: seq<Op>): Context {
    if |ops| == 0 then ctx else Do(codec, Perform(codec, ctx, ops[..|ops| - 1]), ops[|ops| - 1])
  }

  function ProcessEvent(codec: Codec, ctx: Context, ev: Input, idx: nat): Context {
    Perform(codec, ctx, OpsOf(ctx.requests, ev, idx))
  }

  function ProcessEvents(codec: Codec, ctx: Context, events: seq<Input>, n: nat): Context
    requires n <= |events|
  {
    if n == 0 then ctx else ProcessEvent(codec, ProcessEvents(codec, ctx, events, n - 1), events[n - 1], n - 1)
  }

  datatype ReplayResult = ReplayResult(
    targetIndex: int, resources: seq<Resource>, intents: seq<Intent>, diagnostics: seq<Diagnostic>)

  function Values(resources: OMap<ResourceKey, Resource>, order: seq<ResourceKey>): seq<Resource> {
    if |order| == 0 then []
    else if order[0] in resources.entries then [resources.entries[order[0]]] + Values(resources, order[1..])
    else Values(resources, order[1..])
  }

  /** A target outside the log is diagnosed. */
  function StartAt(events: nat, targetIndex: int): Context {
    if 0 <= targetIndex < events then EMPTY
    else AddDiagnostic(EMPTY, Diagnostic(InvalidTargetIndex, Warning, if targetIndex > 0 then targetIndex else 0))
  }

  /** How many events are replayed: the target is clamped to the log. */
  function Reach(events: nat, targetIndex: int): (n: nat)
    ensures n <= events
  {
    if targetIndex < 0 then 0 else if targetIndex < events then targetIndex + 1 else events
  }

  function Freeze(ctx: Context, targetIndex: int): ReplayResult {
    ReplayResult(targetIndex, Values(ctx.resources, ctx.resources.order), ctx.intents, ctx.diagnostics)
  }

  function ReplayToIndex(codec: Codec, events: seq<Input>, targetIndex: int): ReplayResult {
    Freeze(ProcessEvents(codec, StartAt(|events|, targetIndex), events, Reach(|events|, targetIndex)), targetIndex)
  }
}
