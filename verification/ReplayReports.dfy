/** What a replay reports besides the resources: every complaint about a resource reaches the overall list,
    and a client's intents are only ever appended and, once, accepted. */
module ReplayReports {
  import opened Collections
  import opened Events
  import opened ReplaySpec

  // ---------- intents ----------

  /** Later, the same intents and perhaps more; what was accepted stays so, by the same envelope. */
  ghost predicate IntentsGrow(a: seq<Intent>, b: seq<Intent>) {
    |a| <= |b| && forall i :: 0 <= i < |a| ==> IntentGrows(a[i], b[i])
  }

  predicate IntentGrows(x: Intent, y: Intent) {
    y == x || (x.acceptedByServerSeq.None? && y.acceptedByServerSeq.Some? && y == x.(acceptedByServerSeq := y.acceptedByServerSeq))
  }

  lemma IntentsGrowOn(a: seq<Intent>, b: seq<Intent>, c: seq<Intent>)
    requires IntentsGrow(a, b) && IntentsGrow(b, c)
    ensures IntentsGrow(a, c)
  {
    forall i | 0 <= i < |a| ensures IntentGrows(a[i], c[i]) {
      assert IntentGrows(a[i], b[i]) && IntentGrows(b[i], c[i]);
    }
  }

  lemma {:induction false} AcceptFirstGrows(intents: seq<Intent>, clientSeq: Option<int>, serverSeq: int)
    ensures IntentsGrow(intents, AcceptFirst(intents, clientSeq, serverSeq))
    ensures |AcceptFirst(intents, clientSeq, serverSeq)| == |intents|
    decreases |intents|
  {
    if |intents| > 0 {
      var rest := AcceptFirst(intents[1..], clientSeq, serverSeq);
      AcceptFirstGrows(intents[1..], clientSeq, serverSeq);
      assert forall i :: 0 <= i < |rest| ==> IntentGrows(intents[1..][i], rest[i]);
      forall i | 0 <= i < |intents| ensures IntentGrows(intents[i], AcceptFirst(intents, clientSeq, serverSeq)[i]) {
        if i > 0 { assert intents[i] == intents[1..][i - 1]; }
      }
    }
  }

  /** How many intents an acceptance accepts: one if there is an unaccepted match, else none. */
  function Accepted(intents: seq<Intent>): nat {
    if |intents| == 0 then 0 else (if intents[0].acceptedByServerSeq.Some? then 1 else 0) + Accepted(intents[1..])
  }

  predicate Awaits(intents: seq<Intent>, clientSeq: Option<int>) {
    |intents| > 0 && ((intents[0].clientSeq == clientSeq && intents[0].acceptedByServerSeq.None?) || Awaits(intents[1..], clientSeq))
  }

  lemma {:induction false} AcceptsOne(intents: seq<Intent>, clientSeq: Option<int>, serverSeq: int)
    ensures Accepted(AcceptFirst(intents, clientSeq, serverSeq)) == Accepted(intents) + (if Awaits(intents, clientSeq) then 1 else 0)
    decreases |intents|
  {
    if |intents| > 0 {
      var head, rest := intents[0], AcceptFirst(intents[1..], clientSeq, serverSeq);
      if head.clientSeq == clientSeq && head.acceptedByServerSeq.None? {
        assert ([head.(acceptedByServerSeq := Some(serverSeq))] + intents[1..])[1..] == intents[1..];
      } else {
        AcceptsOne(intents[1..], clientSeq, serverSeq);
        assert ([head] + rest)[1..] == rest;
      }
    }
  }

  lemma DoGrowsIntents(codec: Codec, ctx: Context, op: Op)
    ensures IntentsGrow(ctx.intents, Do(codec, ctx, op).intents)
  {
    if op.Deliver? { AcceptFirstGrows(ctx.intents, op.envelope.clientSeq, op.envelope.serverSeq); }
  }

  lemma {:induction false} PerformGrowsIntents(codec: Codec, ctx: Context, ops: seq<Op>)
    ensures IntentsGrow(ctx.intents, Perform(codec, ctx, ops).intents)
    decreases |ops|
  {
    if |ops| > 0 {
      var front := Perform(codec, ctx, ops[..|ops| - 1]);
      PerformGrowsIntents(codec, ctx, ops[..|ops| - 1]);
      DoGrowsIntents(codec, front, ops[|ops| - 1]);
      IntentsGrowOn(ctx.intents, front.intents, Do(codec, front, ops[|ops| - 1]).intents);
    }
  }

  /** Over every log, from any of its events to any later one: intents are only appended, and an accepted
      intent stays accepted by the envelope that accepted it. */
  lemma {:induction false} IntentsOnlySettle(codec: Codec, start: Context, events: seq<Input>, m: nat, n: nat)
    requires m <= n <= |events|
    ensures IntentsGrow(ProcessEvents(codec, start, events, m).intents, ProcessEvents(codec, start, events, n).intents)
    decreases n
  {
    if m < n {
      var before := ProcessEvents(codec, start, events, n - 1);
      IntentsOnlySettle(codec, start, events, m, n - 1);
      PerformGrowsIntents(codec, before, OpsOf(before.requests, events[n - 1], n - 1));
      IntentsGrowOn(ProcessEvents(codec, start, events, m).intents, before.intents, ProcessEvents(codec, start, events, n).intents);
    }
  }

  // ---------- diagnostics ----------

  /** Whatever a resource is blamed for is in the overall list. */
  ghost predicate Reported(ctx: Context) {
    forall k, i :: k in ctx.resources.entries && 0 <= i < |ctx.resources.entries[k].diagnostics| ==>
      ctx.resources.entries[k].diagnostics[i] in ctx.diagnostics
  }

  lemma {:induction false} ComplaintsExtend(r: Resource, n: nat, idx: nat)
    ensures r.diagnostics <= Complaints(r, n, idx).diagnostics
    decreases n
  {
    if n > 0 { ComplaintsExtend(WithDiagnostic(r, Diagnostic(UnknownAction, Warning, idx)), n - 1, idx); }
  }

  /** Receiving an envelope only adds diagnostics. */
  lemma ReceiveExtends(codec: Codec, r: Resource, e: Envelope, idx: nat, ts: int)
    ensures r.diagnostics <= Receive(codec, r, e, idx, ts).diagnostics
  {
    var kind := TargetKind(codec, e);
    var code := JudgeSeq(r.lastServerSeq, e.serverSeq).1;
    var judged := if code.Some? then WithDiagnostic(r, Diagnostic(code.value, Warning, idx)) else r;
    var reduced := codec.reduce(kind, r.state, e.action, ts);
    ComplaintsExtend(judged.(state := reduced.state, lastAppliedEventIdx := idx, lastServerSeq := Some(e.serverSeq)), reduced.complaints, idx);
  }

  lemma DeliverReports(codec: Codec, ctx: Context, e: Envelope, idx: nat, ts: int)
    requires ctx.resources.Valid() && Reported(ctx)
    ensures Reported(ApplyEnvelope(codec, ctx, e, idx, ts))
  {
    var found := FindResource(ctx, ResourceKey(TargetKind(codec, e), e.channel));
    if found.Some? && found.value in ctx.resources.entries {
      var r := ctx.resources.entries[found.value];
      var r' := Receive(codec, r, e, idx, ts);
      ReceiveExtends(codec, r, e, idx, ts);
      ExtendedReports(ctx.diagnostics, r, r');
    }
  }

  /** What the resource had was reported, and what is new is reported now. */
  lemma ExtendedReports(diagnostics: seq<Diagnostic>, r: Resource, r': Resource)
    requires |r.diagnostics| <= |r'.diagnostics| && r'.diagnostics[..|r.diagnostics|] == r.diagnostics
    requires forall i :: 0 <= i < |r.diagnostics| ==> r.diagnostics[i] in diagnostics
    ensures forall i :: 0 <= i < |r'.diagnostics| ==> r'.diagnostics[i] in diagnostics + NewDiagnostics(r, r')
  {
    forall i | 0 <= i < |r'.diagnostics| ensures r'.diagnostics[i] in diagnostics + NewDiagnostics(r, r') {
      if i < |r.diagnostics| {
        assert r'.diagnostics[i] == r'.diagnostics[..|r.diagnostics|][i];
      } else {
        assert r'.diagnostics[i] == NewDiagnostics(r, r')[i - |r.diagnostics|];
      }
    }
  }

  lemma DoReports(codec: Codec, ctx: Context, op: Op)
    requires ctx.resources.Valid() && Reported(ctx)
    ensures Do(codec, ctx, op).resources.Valid() && Reported(Do(codec, ctx, op))
  {
    if op.Deliver? { DeliverReports(codec, ctx, op.envelope, op.idx, op.ts); }
  }

  lemma {:induction false} PerformReports(codec: Codec, ctx: Context, ops: seq<Op>)
    requires ctx.resources.Valid() && Reported(ctx)
    ensures Perform(codec, ctx, ops).resources.Valid() && Reported(Perform(codec, ctx, ops))
    decreases |ops|
  {
    if |ops| > 0 {
      PerformReports(codec, ctx, ops[..|ops| - 1]);
      DoReports(codec, Perform(codec, ctx, ops[..|ops| - 1]), ops[|ops| - 1]);
    }
  }

  /** After any log, every diagnostic of a resource is among those of the replay. */
  lemma {:induction false} EveryComplaintIsReported(codec: Codec, events: seq<Input>, n: nat)
    requires n <= |events|
    ensures ProcessEvents(codec, EMPTY, events, n).resources.Valid() && Reported(ProcessEvents(codec, EMPTY, events, n))
    decreases n
  {
    if n > 0 {
      var before := ProcessEvents(codec, EMPTY, events, n - 1);
      EveryComplaintIsReported(codec, events, n - 1);
      PerformReports(codec, before, OpsOf(before.requests, events[n - 1], n - 1));
    }
  }
}
