/** The replay as the program runs it: a context of maps and lists updated event by event. */
module Replay {
  import opened Collections
  import opened Events
  import opened ReplaySpec
  import Laws = ReplayLaws
  import Reports = ReplayReports

  class Replay {
    const codec: Codec
    var resources: OMap<ResourceKey, Resource>
    var requests: map<Key, RequestContext>
    var intents: seq<Intent>
    var diagnostics: seq<Diagnostic>

    ghost function State(): Context
      reads this
    {
      Context(resources, requests, intents, diagnostics)
    }

    constructor (codec: Codec)
      ensures this.codec == codec && State() == EMPTY
    {
      this.codec := codec;
      resources, requests, intents, diagnostics := Empty(), map[], [], [];
    }

    method AddDiagnostic(d: Diagnostic)
      modifies this`diagnostics
      ensures State() == ReplaySpec.AddDiagnostic(old(State()), d)
    {
      diagnostics := diagnostics + [d];
    }

    method AddResourceDiagnostic(key: ResourceKey, d: Diagnostic)
      requires key in resources.entries
      modifies this`resources, this`diagnostics
      ensures State() == ReplaySpec.AddResourceDiagnostic(old(State()), key, d)
      ensures key in resources.entries && resources.entries[key] == WithDiagnostic(old(resources.entries[key]), d)
      ensures resources == old(resources).Set(key, resources.entries[key]) && diagnostics == old(diagnostics) + [d]
    {
      resources := resources.Set(key, WithDiagnostic(resources.entries[key], d));
      AddDiagnostic(d);
    }

    method InstallSnapshot(s: Snapshot, idx: nat)
      requires resources.Valid()
      modifies this
      ensures State() == ReplaySpec.InstallSnapshot(codec, old(State()), s, idx) && resources.Valid()
    {
      var kind := SnapshotKind(codec, s);
      var key := ResourceKey(kind, s.resource);
      if kind == UnknownKind {
        var d := Diagnostic(UnknownSnapshot, Warning, idx);
        AddDiagnostic(d);
        resources := resources.Set(key, Resource(key, s.state, idx, idx, s.fromSeq, Some(s.fromSeq), Unknown, [d]));
        return;
      }
      resources := resources.Set(key, Resource(key, s.state, idx, idx, s.fromSeq, Some(s.fromSeq), Complete, []));
    }

    /** Malformed entries are diagnosed, the others installed. */
    method InstallSnapshots(snapshots: seq<Option<Snapshot>>, idx: nat)
      requires resources.Valid()
      modifies this
      ensures State() == Perform(codec, old(State()), InstallOps(snapshots, idx)) && resources.Valid()
    {
      ghost var ops := InstallOps(snapshots, idx);
      var i := 0;
      assert ops[..0] == [];
      while i < |snapshots|
        invariant i <= |snapshots| && resources.Valid()
        invariant State() == Perform(codec, old(State()), ops[..i])
      {
        InstallOpsAt(snapshots, idx, i);
        PerformNext(codec, old(State()), ops, i);
        InstallOrDiagnose(snapshots[i], idx);
        i := i + 1;
      }
      assert ops[..i] == ops;
    }

    method InstallOrDiagnose(s: Option<Snapshot>, idx: nat)
      requires resources.Valid()
      modifies this
      ensures State() == Do(codec, old(State()), InstallOp(s, idx)) && resources.Valid()
    {
      if s.Some? {
        InstallSnapshot(s.value, idx);
      } else {
        AddDiagnostic(Diagnostic(MalformedEnvelope, Warning, idx));
      }
    }

    /** Malformed entries are diagnosed, the others applied in order. */
    method ApplyActions(actions: seq<Option<Envelope>>, idx: nat, ts: int)
      requires resources.Valid()
      modifies this
      ensures State() == Perform(codec, old(State()), DeliverOps(actions, idx, ts)) && resources.Valid()
    {
      ghost var ops := DeliverOps(actions, idx, ts);
      var i := 0;
      assert ops[..0] == [];
      while i < |actions|
        invariant i <= |actions| && resources.Valid()
        invariant State() == Perform(codec, old(State()), ops[..i])
      {
        DeliverOpsAt(actions, idx, ts, i);
        PerformNext(codec, old(State()), ops, i);
        ApplyOrDiagnose(actions[i], idx, ts);
        i := i + 1;
      }
      assert ops[..i] == ops;
    }

    method ApplyOrDiagnose(e: Option<Envelope>, idx: nat, ts: int)
      requires resources.Valid()
      modifies this
      ensures State() == Do(codec, old(State()), DeliverOp(e, idx, ts)) && resources.Valid()
    {
      if e.Some? {
        ApplyEnvelope(e.value, idx, ts);
      } else {
        AddDiagnostic(Diagnostic(MalformedEnvelope, Warning, idx));
      }
    }

    method DiagnoseMissing(missing: nat, idx: nat)
      modifies this`diagnostics
      ensures State() == Perform(codec, old(State()), MissingOps(missing, idx))
    {
      var n: nat := missing;
      while n > 0
        invariant Perform(codec, State(), MissingOps(n, idx)) == Perform(codec, old(State()), MissingOps(missing, idx))
      {
        var d := Diagnostic(ReconnectMissingResource, Warning, idx);
        Laws.PerformConcat(codec, State(), [Note(d)], MissingOps(n - 1, idx));
        Laws.PerformOne(codec, State(), Note(d));
        AddDiagnostic(d);
        n := n - 1;
      }
    }

    method ProcessReconnectResult(result: Reconnect, idx: nat, ts: int)
      requires resources.Valid()
      modifies this
      ensures State() == Perform(codec, old(State()), ReconnectOps(result, idx, ts)) && resources.Valid()
    {
      ghost var before := State();
      var malformed := Diagnostic(MalformedEnvelope, Warning, idx);
      Laws.PerformOne(codec, before, Note(malformed));
      match result {
        case MalformedReconnect =>
          AddDiagnostic(malformed);
        case ReconnectSnapshots(snapshots) =>
          if snapshots.None? {
            AddDiagnostic(malformed);
          } else {
            InstallSnapshots(snapshots.value, idx);
          }
        case ReconnectReplay(missing, actions) =>
          DiagnoseMissing(missing, idx);
          ghost var noted := State();
          Laws.PerformOne(codec, noted, Note(malformed));
          Laws.PerformConcat(codec, before, MissingOps(missing, idx), if actions.Some? then DeliverOps(actions.value, idx, ts) else [Malformed(idx)]);
          if actions.None? {
            AddDiagnostic(malformed);
          } else {
            ApplyActions(actions.value, idx, ts);
          }
      }
    }

    method ProcessResponse(key: Key, result: Option<Result>, idx: nat, ts: int)
      requires resources.Valid()
      modifies this
      ensures State() == ProcessEvent(codec, old(State()), ResponseInput(key, result, ts), idx) && resources.Valid()
    {
      if key !in requests || result.None? {
        return;
      }
      var malformed := Diagnostic(MalformedEnvelope, Warning, idx);
      Laws.PerformOne(codec, State(), Note(malformed));
      var method_ := requests[key].method_;
      if method_ == Some("initialize") {
        if result.value.snapshots.None? {
          AddDiagnostic(malformed);
        } else {
          InstallSnapshots(result.value.snapshots.value, idx);
        }
      } else if method_ == Some("subscribe") {
        if result.value.snapshot.None? || result.value.snapshot.value.None? {
          AddDiagnostic(malformed);
        } else {
          Laws.PerformOne(codec, State(), Install(result.value.snapshot.value.value, idx));
          InstallSnapshot(result.value.snapshot.value.value, idx);
        }
      } else if method_ == Some("reconnect") {
        ProcessReconnectResult(result.value.reconnect, idx, ts);
      }
    }

    method Process(ev: Input, idx: nat)
      requires resources.Valid()
      modifies this
      ensures State() == ProcessEvent(codec, old(State()), ev, idx) && resources.Valid()
    {
      match ev {
        case Unparsed =>
          Laws.PerformOne(codec, State(), Note(Diagnostic(ParseFailure, Warning, idx)));
          AddDiagnostic(Diagnostic(ParseFailure, Warning, idx));
        case RequestInput(key, method_) =>
          Laws.PerformOne(codec, State(), Remember(key, RequestContext(method_, idx)));
          requests := requests[key := RequestContext(method_, idx)];
        case ResponseInput(key, result, ts) =>
          ProcessResponse(key, result, idx, ts);
        case IntentInput(ts, clientSeq, actionType, target) =>
          RecordClientIntent(Intent(idx, ts, clientSeq, actionType, target, None), idx);
        case ActionInput(e, ts) =>
          ApplyActions([e], idx, ts);
          assert DeliverOps([e], idx, ts) == [DeliverOp(e, idx, ts)];
        case OtherInput =>
      }
    }

    method RecordClientIntent(intent: Intent, idx: nat)
      modifies this`intents, this`diagnostics
      ensures State() == Perform(codec, old(State()), [Record(intent), Note(Diagnostic(IgnoredClientIntent, Info, idx))])
    {
      ghost var before := State();
      var d := Diagnostic(IgnoredClientIntent, Info, idx);
      intents := intents + [intent];
      AddDiagnostic(d);
      assert [Record(intent), Note(d)] == [Record(intent)] + [Note(d)];
      Laws.PerformConcat(codec, before, [Record(intent)], [Note(d)]);
      Laws.PerformOne(codec, before, Record(intent));
      Laws.PerformOne(codec, before.(intents := before.intents + [intent]), Note(d));
    }

    /** Whether a sequence number is applied; a gap, a duplicate or a straggler is diagnosed. */
    method ShouldApplyServerSeq(key: ResourceKey, e: Envelope, idx: nat) returns (apply: bool)
      requires key in resources.entries
      modifies this`resources, this`diagnostics
      ensures apply == JudgeSeq(old(resources.entries[key]).lastServerSeq, e.serverSeq).0
      ensures key in resources.entries && resources == old(resources).Set(key, resources.entries[key])
      ensures
        var r := old(resources.entries[key]);
        && resources.entries[key] == Judged(r, e, idx)
        && diagnostics == old(diagnostics) + Judged(r, e, idx).diagnostics[|r.diagnostics|..]
    {
      var last, serverSeq := resources.entries[key].lastServerSeq, e.serverSeq;
      if last.None? || serverSeq == last.value + 1 {
        return true;
      }
      if serverSeq > last.value + 1 {
        AddResourceDiagnostic(key, Diagnostic(ServerSeqGap, Warning, idx));
        return true;
      }
      AddResourceDiagnostic(key, Diagnostic(if serverSeq == last.value then ServerSeqDuplicate else ServerSeqOutOfOrder, Warning, idx));
      return false;
    }

    /** Marks the oldest matching intent that is not accepted yet. */
    method LinkAcceptedIntent(e: Envelope)
      modifies this`intents
      ensures intents == ReplaySpec.LinkAcceptedIntent(old(intents), e)
    {
      if e.clientSeq.None? {
        return;
      }
      var i := 0;
      while i < |intents| && !Matches(intents[i], e.clientSeq)
        invariant i <= |intents| && intents == old(intents)
        invariant forall j :: 0 <= j < i ==> !Matches(intents[j], e.clientSeq)
      {
        i := i + 1;
      }
      AcceptFirstAt(intents, e.clientSeq, e.serverSeq, i);
      if i < |intents| {
        intents := intents[i := intents[i].(acceptedByServerSeq := Some(e.serverSeq))];
      }
    }

    method ApplyEnvelope(e: Envelope, idx: nat, ts: int)
      requires resources.Valid()
      modifies this
      ensures State() == ReplaySpec.ApplyEnvelope(codec, old(State()), e, idx, ts)
      ensures resources.Valid()
    {
      var kind := TargetKind(codec, e);
      var found := Find(ResourceKey(kind, e.channel));
      if found.None? {
        AddDiagnostic(Diagnostic(MissingBaseline, Warning, idx));
        return;
      }
      Receive(found.value, kind, e, idx, ts);
    }

    /** The envelope reaches the resource `key`. */
    method Receive(key: ResourceKey, kind: Kind, e: Envelope, idx: nat, ts: int)
      requires key in resources.entries && kind == TargetKind(codec, e)
      modifies this`resources, this`diagnostics, this`intents
      ensures
        var r := old(resources.entries[key]);
        var r' := ReplaySpec.Receive(codec, r, e, idx, ts);
        && resources == old(resources).Set(key, r')
        && diagnostics == old(diagnostics) + NewDiagnostics(r, r')
        && intents == (if Applies(r, e) then ReplaySpec.LinkAcceptedIntent(old(intents), e) else old(intents))
    {
      if e.rejection.Some? && e.rejection.value != "" {
        ghost var r := resources.entries[key];
        AddResourceDiagnostic(key, Diagnostic(MalformedEnvelope, Warning, idx));
        ReceiveRefused(codec, r, e, idx, ts);
        return;
      }
      ReceiveInSequence(key, kind, e, idx, ts);
    }

    /** The envelope is not rejected: its sequence number decides. */
    method ReceiveInSequence(key: ResourceKey, kind: Kind, e: Envelope, idx: nat, ts: int)
      requires key in resources.entries && kind == TargetKind(codec, e)
      requires !(e.rejection.Some? && e.rejection.value != "")
      modifies this`resources, this`diagnostics, this`intents
      ensures
        var r := old(resources.entries[key]);
        var r' := ReplaySpec.Receive(codec, r, e, idx, ts);
        && resources == old(resources).Set(key, r')
        && diagnostics == old(diagnostics) + NewDiagnostics(r, r')
        && intents == (if Applies(r, e) then ReplaySpec.LinkAcceptedIntent(old(intents), e) else old(intents))
    {
      ghost var r := resources.entries[key];
      var apply := ShouldApplyServerSeq(key, e, idx);
      if !apply {
        ReceiveRefused(codec, r, e, idx, ts);
        return;
      }
      LinkAcceptedIntent(e);
      ghost var judged := resources.entries[key];
      Accept(key, kind, e, idx, ts, r);
      SetTwice(old(resources), key, judged, ReplaySpec.Receive(codec, r, e, idx, ts));
    }

    /** The rest of `Receive`, once the sequence number is accepted. */
    method Accept(key: ResourceKey, kind: Kind, e: Envelope, idx: nat, ts: int, ghost r: Resource)
      requires key in resources.entries && kind == TargetKind(codec, e) && Applies(r, e)
      requires resources.entries[key] == Judged(r, e, idx)
      modifies this`resources, this`diagnostics
      ensures resources == old(resources).Set(key, ReplaySpec.Receive(codec, r, e, idx, ts))
      ensures |old(diagnostics)| <= |diagnostics| && diagnostics[..|old(diagnostics)|] == old(diagnostics)
      ensures
        Judged(r, e, idx).diagnostics[|r.diagnostics|..] + diagnostics[|old(diagnostics)|..]
        == NewDiagnostics(r, ReplaySpec.Receive(codec, r, e, idx, ts))
    {
      ghost var judged := resources.entries[key];
      ghost var before := diagnostics;
      ApplyAccepted(key, kind, e, idx, ts, r);
      assert diagnostics[|before|..] == NewDiagnostics(judged, ReplaySpec.Receive(codec, r, e, idx, ts));
      NewDiagnosticsOfReceive(codec, r, judged, e, idx, ts);
    }

    method Find(target: ResourceKey) returns (found: Option<ResourceKey>)
      requires resources.Valid()
      ensures found == FindResource(State(), target)
      ensures found.Some? ==> found.value in resources.entries
    {
      if target in resources.entries {
        return Some(target);
      }
      var i := 0;
      assert resources.order[0..] == resources.order;
      while i < |resources.order|
        invariant i <= |resources.order|
        invariant FirstWithUri(resources.order[i..], target.uri) == FirstWithUri(resources.order, target.uri)
      {
        if resources.order[i].uri == target.uri {
          return Some(resources.order[i]);
        }
        assert resources.order[i..][1..] == resources.order[i + 1..];
        i := i + 1;
      }
      return None;
    }

    /** The accepted envelope changes the resource: not at all when its action is unsupported or belongs to
        another kind, else by its kind's reducer. `r` is the resource as it was found. */
    method ApplyAccepted(key: ResourceKey, kind: Kind, e: Envelope, idx: nat, ts: int, ghost r: Resource)
      requires key in resources.entries && kind == TargetKind(codec, e)
      requires Applies(r, e)
      requires resources.entries[key] == Judged(r, e, idx)
      modifies this`resources, this`diagnostics
      ensures resources == old(resources).Set(key, ReplaySpec.Receive(codec, r, e, idx, ts))
      ensures diagnostics == old(diagnostics) + NewDiagnostics(old(resources.entries[key]), ReplaySpec.Receive(codec, r, e, idx, ts))
    {
      ghost var judged := resources.entries[key];
      if kind == UnknownKind || resources.entries[key].key.kind != kind {
        AddResourceDiagnostic(key, Diagnostic(if kind == UnknownKind then UnknownAction else ScopeCreepBlocked, Warning, idx));
        resources := resources.Set(key, resources.entries[key].(lastServerSeq := Some(e.serverSeq), confidence := Unknown));
        return;
      }
      var reduced := codec.reduce(kind, resources.entries[key].state, e.action, ts);
      resources := resources.Set(key, resources.entries[key].(state := reduced.state, lastAppliedEventIdx := idx, lastServerSeq := Some(e.serverSeq)));
      LogComplaints(key, reduced.complaints, idx);
    }

    /** One diagnostic for each message the reducer logged. */
    method LogComplaints(key: ResourceKey, complaints: nat, idx: nat)
      requires key in resources.entries
      modifies this`resources, this`diagnostics
      ensures
        var base := old(resources.entries[key]);
        var r' := Complaints(base, complaints, idx);
        && resources == old(resources).Set(key, r')
        && |r'.diagnostics| >= |base.diagnostics|
        && diagnostics == old(diagnostics) + r'.diagnostics[|base.diagnostics|..]
    {
      ghost var base := resources.entries[key];
      ghost var others := diagnostics;
      var n := complaints;
      while n > 0
        invariant key in resources.entries && resources == old(resources).Set(key, resources.entries[key])
        invariant Complaints(resources.entries[key], n, idx) == Complaints(base, complaints, idx)
        invariant |resources.entries[key].diagnostics| >= |base.diagnostics| && resources.entries[key].diagnostics[..|base.diagnostics|] == base.diagnostics
        invariant diagnostics == others + resources.entries[key].diagnostics[|base.diagnostics|..]
      {
        AddResourceDiagnostic(key, Diagnostic(UnknownAction, Warning, idx));
        n := n - 1;
      }
    }
  }

  lemma SetTwice(m: OMap<ResourceKey, Resource>, key: ResourceKey, a: Resource, b: Resource)
    ensures m.Set(key, a).Set(key, b) == m.Set(key, b)
  {
    assert m.entries[key := a][key := b] == m.entries[key := b];
  }

  lemma PerformNext(codec: Codec, ctx: Context, ops: seq<Op>, i: nat)
    requires i < |ops|
    ensures Perform(codec, ctx, ops[..i + 1]) == Do(codec, Perform(codec, ctx, ops[..i]), ops[i])
  {
    assert ops[..i + 1][..i] == ops[..i];
  }

  lemma {:induction false} InstallOpsAt(snapshots: seq<Option<Snapshot>>, idx: nat, i: nat)
    requires i < |snapshots|
    ensures InstallOps(snapshots, idx)[i] == InstallOp(snapshots[i], idx)
  {
    if i > 0 { InstallOpsAt(snapshots[1..], idx, i - 1); }
  }

  /** The resource with the diagnostic its sequence number deserves, if any. */
  function Judged(r: Resource, e: Envelope, idx: nat): Resource {
    var code := JudgeSeq(r.lastServerSeq, e.serverSeq).1;
    if code.Some? then WithDiagnostic(r, Diagnostic(code.value, Warning, idx)) else r
  }

  lemma ReceiveRefused(codec: Codec, r: Resource, e: Envelope, idx: nat, ts: int)
    requires !Applies(r, e)
    ensures
      var code := if e.rejection.Some? && e.rejection.value != "" then MalformedEnvelope else JudgeSeq(r.lastServerSeq, e.serverSeq).1.value;
      var d := Diagnostic(code, Warning, idx);
      ReplaySpec.Receive(codec, r, e, idx, ts) == WithDiagnostic(r, d) && NewDiagnostics(r, WithDiagnostic(r, d)) == [d]
  {
  }

  /** The diagnostics of an accepted envelope: the one of its sequence number, then those of its action. */
  lemma NewDiagnosticsOfReceive(codec: Codec, r: Resource, judged: Resource, e: Envelope, idx: nat, ts: int)
    requires Applies(r, e)
    requires judged == Judged(r, e, idx)
    ensures
      var r' := Receive(codec, r, e, idx, ts);
      NewDiagnostics(r, r') == judged.diagnostics[|r.diagnostics|..] + NewDiagnostics(judged, r')
  {
    var r' := Receive(codec, r, e, idx, ts);
    var reduced := codec.reduce(TargetKind(codec, e), r.state, e.action, ts);
    Reports.ComplaintsExtend(judged.(state := reduced.state, lastAppliedEventIdx := idx, lastServerSeq := Some(e.serverSeq)), reduced.complaints, idx);
    assert |judged.diagnostics| <= |r'.diagnostics| && r'.diagnostics[..|judged.diagnostics|] == judged.diagnostics;
    assert r'.diagnostics == judged.diagnostics + r'.diagnostics[|judged.diagnostics|..];
  }

  predicate Matches(intent: Intent, clientSeq: Option<int>) {
    intent.clientSeq == clientSeq && intent.acceptedByServerSeq.None?
  }

  /** `i` is the first match, or the length when there is none. */
  lemma {:induction false} AcceptFirstAt(intents: seq<Intent>, clientSeq: Option<int>, serverSeq: int, i: nat)
    requires i <= |intents| && (forall j :: 0 <= j < i ==> !Matches(intents[j], clientSeq))
    requires i < |intents| ==> Matches(intents[i], clientSeq)
    ensures AcceptFirst(intents, clientSeq, serverSeq)
         == if i < |intents| then intents[i := intents[i].(acceptedByServerSeq := Some(serverSeq))] else intents
    decreases |intents|
  {
    if |intents| > 0 && i > 0 {
      AcceptFirstAt(intents[1..], clientSeq, serverSeq, i - 1);
    }
  }

  lemma {:induction false} DeliverOpsAt(actions: seq<Option<Envelope>>, idx: nat, ts: int, i: nat)
    requires i < |actions|
    ensures DeliverOps(actions, idx, ts)[i] == DeliverOp(actions[i], idx, ts)
  {
    if i > 0 { DeliverOpsAt(actions[1..], idx, ts, i - 1); }
  }

  /** The first `n` events, in order. */
  method ProcessAll(r: Replay, events: seq<Input>, n: nat)
    requires n <= |events| && r.resources.Valid()
    modifies r
    ensures r.State() == ProcessEvents(r.codec, old(r.State()), events, n) && r.resources.Valid()
  {
    for i := 0 to n
      invariant r.State() == ProcessEvents(r.codec, old(r.State()), events, i) && r.resources.Valid()
    {
      r.Process(events[i], i);
    }
  }

  /** The whole fold: events up to the target, then a frozen copy of the context. */
  method ReplayToIndex(codec: Codec, events: seq<Input>, targetIndex: int) returns (result: ReplayResult)
    ensures result == ReplaySpec.ReplayToIndex(codec, events, targetIndex)
  {
    var r := StartReplay(codec, |events|, targetIndex);
    var end := if targetIndex < -1 then -1 else targetIndex;
    end := if end <= |events| - 1 then end else |events| - 1;
    ProcessAll(r, events, end + 1);
    result := FrozenCopy(r, targetIndex);
  }

  method StartReplay(codec: Codec, events: nat, targetIndex: int) returns (r: Replay)
    ensures fresh(r) && r.codec == codec && r.State() == StartAt(events, targetIndex) && r.resources.Valid()
  {
    r := new Replay(codec);
    if targetIndex < 0 || targetIndex >= events {
      r.AddDiagnostic(Diagnostic(InvalidTargetIndex, Warning, if targetIndex > 0 then targetIndex else 0));
    }
  }

  method FrozenCopy(r: Replay, targetIndex: int) returns (result: ReplayResult)
    requires r.resources.Valid()
    ensures result == Freeze(r.State(), targetIndex)
  {
    var resources := ListResources(r.resources);
    result := ReplayResult(targetIndex, resources, r.intents, r.diagnostics);
  }

  /** The resources in the order in which they were first installed. */
  method ListResources(m: OMap<ResourceKey, Resource>) returns (resources: seq<Resource>)
    requires m.Valid()
    ensures resources == Values(m, m.order)
  {
    resources := [];
    assert m.order[0..] == m.order;
    for n := 0 to |m.order|
      invariant resources + Values(m, m.order[n..]) == Values(m, m.order)
    {
      var r := m.entries[m.order[n]];
      ValuesNext(m, n, resources, r);
      resources := resources + [r];
    }
  }

  lemma ValuesNext(m: OMap<ResourceKey, Resource>, n: nat, before: seq<Resource>, r: Resource)
    requires n < |m.order| && m.order[n] in m.entries && r == m.entries[m.order[n]]
    ensures before + Values(m, m.order[n..]) == (before + [r]) + Values(m, m.order[n + 1..])
  {
    var rest := m.order[n..];
    assert rest[1..] == m.order[n + 1..] && rest[0] == m.order[n];
    assert Values(m, rest) == [r] + Values(m, rest[1..]);
  }
}
