/** How a resource takes the envelopes that reach it, judged by the greatest sequence number so far; and when it
    stays complete. */
module ReplayVerdicts {
  import opened Collections
  import opened Events
  import opened ReplaySpec
  import Laws = ReplayLaws

  // ---------- what an action aims at ----------

  /** How the action types of a kind begin. */
  function TypePrefix(k: Kind): string {
    match k
    case RootKind => "root/" case SessionKind => "session/" case ChatKind => "chat/" case TerminalKind => "terminal/"
    case ChangesetKind => "changeset/" case AnnotationsKind => "annotations/" case ResourceWatchKind => "resourceWatch/"
    case AutomationKind => "automation/" case AutomationRunKind => "automationRun/" case UnknownKind => ""
  }

  lemma PrefixInjective(a: Kind, b: Kind)
    requires TypePrefix(a) == TypePrefix(b)
    ensures a == b
  {
    var x, y := TypePrefix(a), TypePrefix(b);
    assert |x| == |y| && (|x| > 0 ==> x[0] == y[0]) && (|x| > 1 ==> x[1] == y[1]);
  }

  lemma OnePrefix(a: Kind, b: Kind, t: string)
    requires a != UnknownKind && b != UnknownKind && TypePrefix(a) <= t && TypePrefix(b) <= t
    ensures a == b
  {
    var x, y := TypePrefix(a), TypePrefix(b);
    OneSlash(a);
    OneSlash(b);
    assert t[|x| - 1] == x[|x| - 1] && t[|y| - 1] == y[|y| - 1];
    assert forall i :: 0 <= i < |x| ==> t[i] == x[i];
    assert forall i :: 0 <= i < |y| ==> t[i] == y[i];
    assert |x| == |y|;
    assert x == t[..|x|] == y;
    PrefixInjective(a, b);
  }

  lemma OneSlash(k: Kind)
    requires k != UnknownKind
    ensures var x := TypePrefix(k); |x| >= 5 && x[|x| - 1] == '/' && forall i :: 0 <= i < |x| - 1 ==> x[i] != '/'
  {
  }

  lemma KindHasPrefix(t: string)
    ensures KindOfType(t) != UnknownKind ==> TypePrefix(KindOfType(t)) <= t
    ensures KindOfType(t) == UnknownKind ==> forall k :: k != UnknownKind ==> !(TypePrefix(k) <= t)
  {
  }

  /** An action type belongs to the kind whose prefix it has, and to none without one. */
  lemma KindByPrefix(t: string, k: Kind)
    requires k != UnknownKind
    ensures KindOfType(t) == k <==> TypePrefix(k) <= t
  {
    var found := KindOfType(t);
    KindHasPrefix(t);
    if TypePrefix(k) <= t && found != UnknownKind { OnePrefix(k, found, t); }
  }

  // ---------- what reaches a resource ----------

  predicate Reaches(codec: Codec, ctx: Context, op: Op, key: ResourceKey) {
    op.Deliver? && FindResource(ctx, ResourceKey(TargetKind(codec, op.envelope), op.envelope.channel)) == Some(key)
  }

  /** An envelope reaches the resource it is aimed at, if there is one; else the oldest one under its channel. */
  lemma ReachesIff(codec: Codec, ctx: Context, op: Op, key: ResourceKey)
    requires Laws.Filed(ctx) && op.Deliver?
    ensures
      var target, order := ResourceKey(TargetKind(codec, op.envelope), op.envelope.channel), ctx.resources.order;
      Reaches(codec, ctx, op, key) <==>
        if target in ctx.resources.entries then key == target
        else exists i :: 0 <= i < |order| && order[i] == key && key.uri == op.envelope.channel && forall j :: 0 <= j < i ==> order[j].uri != op.envelope.channel
  {
    FirstOfUri(ctx.resources.order, op.envelope.channel);
  }

  lemma {:induction false} FirstOfUri(order: seq<ResourceKey>, uri: string)
    ensures forall i :: 0 <= i < |order| && order[i].uri == uri && (forall j :: 0 <= j < i ==> order[j].uri != uri) ==> FirstWithUri(order, uri) == Some(order[i])
    ensures FirstWithUri(order, uri).Some? ==> exists i :: 0 <= i < |order| && order[i] == FirstWithUri(order, uri).value && forall j :: 0 <= j < i ==> order[j].uri != uri
    decreases |order|
  {
    if |order| > 0 && order[0].uri != uri {
      FirstOfUri(order[1..], uri);
      assert forall i :: 0 < i < |order| ==> order[i] == order[1..][i - 1];
      if k :| 0 <= k < |order[1..]| && FirstWithUri(order[1..], uri) == Some(order[1..][k]) && forall j :: 0 <= j < k ==> order[1..][j].uri != uri {
        assert order[k + 1] == order[1..][k];
        assert forall j :: 0 <= j < k + 1 ==> order[j].uri != uri;
      }
    }
  }

  ghost predicate AllDeliver(ops: seq<Op>) {
    forall i :: 0 <= i < |ops| ==> ops[i].Deliver?
  }

  /** The same resources under the same keys, in the same order. */
  ghost predicate SameShelf(a: Context, b: Context) {
    Laws.Filed(b) && b.resources.order == a.resources.order && forall k :: k in b.resources.entries <==> k in a.resources.entries
  }

  lemma {:induction false} DeliveriesKeepShelf(codec: Codec, ctx: Context, ops: seq<Op>)
    requires Laws.Filed(ctx) && AllDeliver(ops)
    ensures SameShelf(ctx, Perform(codec, ctx, ops))
    decreases |ops|
  {
    if |ops| > 0 {
      var n := |ops| - 1;
      DeliveriesKeepShelf(codec, ctx, ops[..n]);
      Laws.DeliverFrame(codec, Perform(codec, ctx, ops[..n]), ops[n].envelope, ops[n].idx, ops[n].ts);
    }
  }

  lemma ReachesStill(codec: Codec, a: Context, b: Context, op: Op, key: ResourceKey)
    requires SameShelf(a, b)
    ensures Reaches(codec, b, op, key) == Reaches(codec, a, op, key)
  {
  }

  // ---------- one envelope ----------

  /** The envelope is accepted: not rejected, and beyond `last`. */
  predicate Accepted(e: Envelope, last: int) {
    !Laws.Rejected(e) && e.serverSeq > last
  }

  /** Does the envelope fit the resource, and does its reducer have no complaint? */
  predicate Fits(codec: Codec, r: Resource, e: Envelope, ts: int) {
    var kind := TargetKind(codec, e);
    kind != UnknownKind && kind == r.key.kind && codec.reduce(kind, r.state, e.action, ts).complaints == 0
  }

  predicate HasCode(ds: seq<Diagnostic>, code: Code) {
    exists i :: 0 <= i < |ds| && ds[i].code == code
  }

  /** The codes among the diagnostics that `r'` has more than `r`. */
  predicate Notes(r: Resource, r': Resource, code: Code) {
    |r.diagnostics| <= |r'.diagnostics| && HasCode(r'.diagnostics[|r.diagnostics|..], code)
  }

  /** The diagnostics that an envelope deserves: the next number in sequence none, a later one a gap, the last again
      a duplicate, an earlier one a straggler; what is accepted but does not fit, or displeases its reducer, its own. */
  predicate Deserves(codec: Codec, r: Resource, last: int, e: Envelope, ts: int, code: Code) {
    var kind := TargetKind(codec, e);
    match code
    case MalformedEnvelope => Laws.Rejected(e)
    case ServerSeqGap => Accepted(e, last) && e.serverSeq > last + 1
    case ServerSeqDuplicate => !Laws.Rejected(e) && e.serverSeq == last
    case ServerSeqOutOfOrder => !Laws.Rejected(e) && e.serverSeq < last
    case ScopeCreepBlocked => Accepted(e, last) && kind != UnknownKind && kind != r.key.kind
    case UnknownAction =>
      Accepted(e, last) && (kind == UnknownKind || (kind == r.key.kind && codec.reduce(kind, r.state, e.action, ts).complaints > 0))
    case _ => false
  }

  /** What the resource `r`, with last sequence number `last`, becomes by an envelope. */
  ghost predicate Judged(codec: Codec, r: Resource, r': Resource, last: int, e: Envelope, ts: int) {
    var kind := TargetKind(codec, e);
    && r'.key == r.key
    && r'.lastServerSeq == Some(if Accepted(e, last) then e.serverSeq else last)
    && r'.state == (if Accepted(e, last) && kind != UnknownKind && kind == r.key.kind then codec.reduce(kind, r.state, e.action, ts).state else r.state)
    && (forall code :: Notes(r, r', code) <==> Deserves(codec, r, last, e, ts, code))
    && (r'.confidence == Complete <==> r.confidence == Complete && Accepted(e, last) && e.serverSeq == last + 1 && Fits(codec, r, e, ts))
  }

  /** The diagnostics an envelope adds: one for its sequence number, then those of its action. */
  function SeqNotes(e: Envelope, last: int, idx: nat): seq<Diagnostic> {
    if Laws.Rejected(e) then [Diagnostic(MalformedEnvelope, Warning, idx)]
    else if e.serverSeq == last + 1 then []
    else if e.serverSeq > last then [Diagnostic(ServerSeqGap, Warning, idx)]
    else if e.serverSeq == last then [Diagnostic(ServerSeqDuplicate, Warning, idx)]
    else [Diagnostic(ServerSeqOutOfOrder, Warning, idx)]
  }

  function ActionNotes(codec: Codec, r: Resource, last: int, e: Envelope, idx: nat, ts: int): seq<Diagnostic> {
    var kind := TargetKind(codec, e);
    if !Accepted(e, last) then []
    else if kind == UnknownKind then [Diagnostic(UnknownAction, Warning, idx)]
    else if r.key.kind != kind then [Diagnostic(ScopeCreepBlocked, Warning, idx)]
    else Repeat(Diagnostic(UnknownAction, Warning, idx), codec.reduce(kind, r.state, e.action, ts).complaints)
  }

  lemma ReceiveNotes(codec: Codec, r: Resource, last: int, e: Envelope, idx: nat, ts: int)
    requires r.lastServerSeq == Some(last)
    ensures Receive(codec, r, e, idx, ts).diagnostics == r.diagnostics + (SeqNotes(e, last, idx) + ActionNotes(codec, r, last, e, idx, ts))
  {
    var kind := TargetKind(codec, e);
    var code := JudgeSeq(r.lastServerSeq, e.serverSeq).1;
    var judged := if code.Some? then WithDiagnostic(r, Diagnostic(code.value, Warning, idx)) else r;
    if Accepted(e, last) {
      assert judged.diagnostics == r.diagnostics + SeqNotes(e, last, idx);
      if kind != UnknownKind && kind == r.key.kind {
        var reduced := codec.reduce(kind, r.state, e.action, ts);
        ComplaintsAre(judged.(state := reduced.state, lastAppliedEventIdx := idx, lastServerSeq := Some(e.serverSeq)), reduced.complaints, idx);
      }
      assert (r.diagnostics + SeqNotes(e, last, idx)) + ActionNotes(codec, r, last, e, idx, ts)
          == r.diagnostics + (SeqNotes(e, last, idx) + ActionNotes(codec, r, last, e, idx, ts));
    } else {
      assert SeqNotes(e, last, idx) + [] == SeqNotes(e, last, idx);
    }
  }

  lemma NotesAre(r: Resource, r': Resource, a: seq<Diagnostic>, b: seq<Diagnostic>, code: Code)
    requires r'.diagnostics == r.diagnostics + (a + b)
    ensures Notes(r, r', code) <==> HasCode(a, code) || HasCode(b, code)
  {
    var new_ := a + b;
    assert r'.diagnostics[|r.diagnostics|..] == new_;
    if HasCode(a, code) {
      var i :| 0 <= i < |a| && a[i].code == code;
      assert new_[i].code == code;
    }
    if HasCode(b, code) {
      var i :| 0 <= i < |b| && b[i].code == code;
      assert new_[|a| + i].code == code;
    }
  }

  lemma SeqNotesHave(e: Envelope, last: int, idx: nat, code: Code)
    ensures HasCode(SeqNotes(e, last, idx), code) <==>
      || (code == MalformedEnvelope && Laws.Rejected(e))
      || (code == ServerSeqGap && !Laws.Rejected(e) && e.serverSeq > last + 1)
      || (code == ServerSeqDuplicate && !Laws.Rejected(e) && e.serverSeq == last)
      || (code == ServerSeqOutOfOrder && !Laws.Rejected(e) && e.serverSeq < last)
  {
    var notes := SeqNotes(e, last, idx);
    assert |notes| > 0 ==> HasCode(notes, notes[0].code);
  }

  lemma ActionNotesHave(codec: Codec, r: Resource, last: int, e: Envelope, idx: nat, ts: int, code: Code)
    ensures
      var kind := TargetKind(codec, e);
      HasCode(ActionNotes(codec, r, last, e, idx, ts), code) <==>
      || (code == ScopeCreepBlocked && Accepted(e, last) && kind != UnknownKind && kind != r.key.kind)
      || (code == UnknownAction && Accepted(e, last)
          && (kind == UnknownKind || (kind == r.key.kind && codec.reduce(kind, r.state, e.action, ts).complaints > 0)))
  {
    var notes := ActionNotes(codec, r, last, e, idx, ts);
    assert |notes| > 0 ==> HasCode(notes, notes[0].code);
  }

  lemma NotesMean(codec: Codec, r: Resource, r': Resource, last: int, e: Envelope, idx: nat, ts: int, code: Code)
    requires r'.diagnostics == r.diagnostics + (SeqNotes(e, last, idx) + ActionNotes(codec, r, last, e, idx, ts))
    ensures Notes(r, r', code) <==> Deserves(codec, r, last, e, ts, code)
  {
    NotesAre(r, r', SeqNotes(e, last, idx), ActionNotes(codec, r, last, e, idx, ts), code);
    DeservedNotes(codec, r, last, e, idx, ts, code);
  }

  lemma DeservedNotes(codec: Codec, r: Resource, last: int, e: Envelope, idx: nat, ts: int, code: Code)
    ensures HasCode(SeqNotes(e, last, idx), code) || HasCode(ActionNotes(codec, r, last, e, idx, ts), code)
       <==> Deserves(codec, r, last, e, ts, code)
  {
    SeqNotesHave(e, last, idx, code);
    ActionNotesHave(codec, r, last, e, idx, ts, code);
  }

  /** When a resource is complete after an envelope. */
  lemma ReceiveCompletes(codec: Codec, r: Resource, last: int, e: Envelope, idx: nat, ts: int)
    requires r.lastServerSeq == Some(last)
    ensures Receive(codec, r, e, idx, ts).confidence == Complete
       <==> r.confidence == Complete && Accepted(e, last) && e.serverSeq == last + 1 && Fits(codec, r, e, ts)
  {
  }

  lemma ReceiveJudges(codec: Codec, r: Resource, last: int, e: Envelope, idx: nat, ts: int)
    requires r.lastServerSeq == Some(last)
    ensures Judged(codec, r, Receive(codec, r, e, idx, ts), last, e, ts)
  {
    Laws.ReceiveFields(codec, r, e, idx, ts);
    ReceiveCompletes(codec, r, last, e, idx, ts);
    ReceiveNotes(codec, r, last, e, idx, ts);
    forall code ensures Notes(r, Receive(codec, r, e, idx, ts), code) <==> Deserves(codec, r, last, e, ts, code) {
      NotesMean(codec, r, Receive(codec, r, e, idx, ts), last, e, idx, ts, code);
    }
  }

  lemma {:induction false} ComplaintsAre(r: Resource, n: nat, idx: nat)
    ensures Complaints(r, n, idx).diagnostics == r.diagnostics + Repeat(Diagnostic(UnknownAction, Warning, idx), n)
    decreases n
  {
    var d := Diagnostic(UnknownAction, Warning, idx);
    if n > 0 {
      ComplaintsAre(WithDiagnostic(r, d), n - 1, idx);
      assert (r.diagnostics + [d]) + Repeat(d, n - 1) == r.diagnostics + ([d] + Repeat(d, n - 1));
    } else {
      assert r.diagnostics + [] == r.diagnostics;
    }
  }

  function Repeat(d: Diagnostic, n: nat): (r: seq<Diagnostic>)
    ensures |r| == n && forall i :: 0 <= i < n ==> r[i] == d
  {
    if n == 0 then [] else [d] + Repeat(d, n - 1)
  }

  // ---------- over all envelopes ----------

  /** The greatest sequence number of the accepted envelopes that reach the resource, or its baseline's. */
  function Greatest(codec: Codec, ctx: Context, ops: seq<Op>, key: ResourceKey, base: int): int {
    if |ops| == 0 then base
    else
      var n := |ops| - 1;
      var last := Greatest(codec, ctx, ops[..n], key, base);
      if Reaches(codec, ctx, ops[n], key) && !Laws.Rejected(ops[n].envelope) && ops[n].envelope.serverSeq > last
      then ops[n].envelope.serverSeq else last
  }

  /** The resource after the first `i` operations. */
  function After(codec: Codec, ctx: Context, ops: seq<Op>, key: ResourceKey, i: nat): Option<Resource>
    requires i <= |ops|
  {
    Perform(codec, ctx, ops[..i]).resources.Get(key)
  }

  lemma DeliverReaches(codec: Codec, ctx: Context, op: Op, key: ResourceKey)
    requires op.Deliver? && Laws.Filed(ctx) && key in ctx.resources.entries
    ensures
      var r, ctx' := ctx.resources.entries[key], Do(codec, ctx, op);
      && key in ctx'.resources.entries
      && ctx'.resources.entries[key] == if Reaches(codec, ctx, op, key) then Receive(codec, r, op.envelope, op.idx, op.ts) else r
  {
    Laws.DeliverFrame(codec, ctx, op.envelope, op.idx, op.ts);
  }

  /** What operation `n` does to the resource: it judges what reaches it by the greatest number so far. */
  ghost predicate JudgedAt(codec: Codec, ctx: Context, ops: seq<Op>, key: ResourceKey, base: int, n: nat)
    requires n < |ops|
  {
    var r, r', op := After(codec, ctx, ops, key, n), After(codec, ctx, ops, key, n + 1), ops[n];
    && r.Some? && r'.Some?
    && (if Reaches(codec, ctx, op, key) && op.Deliver?
        then Judged(codec, r.value, r'.value, Greatest(codec, ctx, ops[..n], key, base), op.envelope, op.ts)
        else r' == r)
  }

  /** One operation more, after a state in which the last number is the greatest. */
  lemma NextIsJudged(codec: Codec, ctx: Context, before: Context, op: Op, key: ResourceKey, last: int)
    requires Laws.Filed(before) && SameShelf(ctx, before) && op.Deliver? && key in before.resources.entries
    requires before.resources.entries[key].lastServerSeq == Some(last)
    ensures
      var r, r' := before.resources.entries[key], Do(codec, before, op).resources.Get(key);
      && r'.Some?
      && (if Reaches(codec, ctx, op, key) then Judged(codec, r, r'.value, last, op.envelope, op.ts) else r'.value == r)
      && r'.value.lastServerSeq
         == Some(if Reaches(codec, ctx, op, key) && !Laws.Rejected(op.envelope) && op.envelope.serverSeq > last then op.envelope.serverSeq else last)
  {
    ReachesStill(codec, ctx, before, op, key);
    DeliverReaches(codec, before, op, key);
    if Reaches(codec, ctx, op, key) {
      ReceiveJudges(codec, before.resources.entries[key], last, op.envelope, op.idx, op.ts);
    }
  }

  /** Over any deliveries the last sequence number of a resource is the greatest accepted one. */
  lemma {:induction false} LastIsGreatest(codec: Codec, ctx: Context, ops: seq<Op>, key: ResourceKey, base: int)
    requires Laws.Filed(ctx) && AllDeliver(ops) && key in ctx.resources.entries && ctx.resources.entries[key].lastServerSeq == Some(base)
    ensures
      var r := Perform(codec, ctx, ops).resources.Get(key);
      r.Some? && r.value.lastServerSeq == Some(Greatest(codec, ctx, ops, key, base))
    decreases |ops|
  {
    if |ops| > 0 {
      var n := |ops| - 1;
      LastIsGreatest(codec, ctx, ops[..n], key, base);
      DeliveriesKeepShelf(codec, ctx, ops[..n]);
      NextIsJudged(codec, ctx, Perform(codec, ctx, ops[..n]), ops[n], key, Greatest(codec, ctx, ops[..n], key, base));
    }
  }

  lemma PerformNext(codec: Codec, ctx: Context, ops: seq<Op>, n: nat)
    requires n < |ops|
    ensures Perform(codec, ctx, ops[..n + 1]) == Do(codec, Perform(codec, ctx, ops[..n]), ops[n])
  {
    assert ops[..n + 1][..n] == ops[..n];
  }

  /** And every envelope that reaches it is judged by the greatest before it; one that does not leaves it alone. */
  lemma EveryEnvelopeIsJudged(codec: Codec, ctx: Context, ops: seq<Op>, key: ResourceKey, base: int, n: nat)
    requires Laws.Filed(ctx) && AllDeliver(ops) && key in ctx.resources.entries && ctx.resources.entries[key].lastServerSeq == Some(base)
    requires n < |ops|
    ensures JudgedAt(codec, ctx, ops, key, base, n)
  {
    PerformNext(codec, ctx, ops, n);
    LastIsGreatest(codec, ctx, ops[..n], key, base);
    DeliveriesKeepShelf(codec, ctx, ops[..n]);
    NextIsJudged(codec, ctx, Perform(codec, ctx, ops[..n]), ops[n], key, Greatest(codec, ctx, ops[..n], key, base));
  }

  /** The operation does not reach the resource, or brings the next number in sequence, accepted, fitting, and
      without a complaint of its reducer. */
  predicate Clean(codec: Codec, ctx: Context, ops: seq<Op>, key: ResourceKey, base: int, i: nat)
    requires i < |ops|
  {
    Reaches(codec, ctx, ops[i], key) ==>
      var last, r := Greatest(codec, ctx, ops[..i], key, base), After(codec, ctx, ops, key, i);
      && ops[i].Deliver? && r.Some? && Accepted(ops[i].envelope, last) && ops[i].envelope.serverSeq == last + 1
      && Fits(codec, r.value, ops[i].envelope, ops[i].ts)
  }

  lemma NextStaysComplete(codec: Codec, ctx: Context, ops: seq<Op>, key: ResourceKey, base: int, n: nat)
    requires AllDeliver(ops) && n < |ops| && JudgedAt(codec, ctx, ops, key, base, n)
    ensures
      After(codec, ctx, ops, key, n + 1).value.confidence == Complete
      <==> After(codec, ctx, ops, key, n).value.confidence == Complete && Clean(codec, ctx, ops, key, base, n)
  {
  }

  ghost predicate AllClean(codec: Codec, ctx: Context, ops: seq<Op>, key: ResourceKey, base: int, n: nat)
    requires n <= |ops|
  {
    forall i :: 0 <= i < n ==> Clean(codec, ctx, ops, key, base, i)
  }

  lemma OneMoreClean(codec: Codec, ctx: Context, ops: seq<Op>, key: ResourceKey, base: int, n: nat)
    requires n < |ops|
    ensures AllClean(codec, ctx, ops, key, base, n + 1) <==> AllClean(codec, ctx, ops, key, base, n) && Clean(codec, ctx, ops, key, base, n)
  {
  }

  lemma AfterNothing(codec: Codec, ctx: Context, ops: seq<Op>, key: ResourceKey)
    ensures After(codec, ctx, ops, key, 0) == ctx.resources.Get(key)
  {
  }

  /** A resource stays complete over any deliveries exactly if all of them are clean. */
  lemma {:induction false} StaysCompleteIff(codec: Codec, ctx: Context, ops: seq<Op>, key: ResourceKey, base: int, n: nat)
    requires Laws.Filed(ctx) && AllDeliver(ops) && key in ctx.resources.entries && ctx.resources.entries[key].lastServerSeq == Some(base)
    requires n <= |ops|
    ensures After(codec, ctx, ops, key, n).Some?
    ensures After(codec, ctx, ops, key, n).value.confidence == Complete
       <==> ctx.resources.entries[key].confidence == Complete && AllClean(codec, ctx, ops, key, base, n)
    decreases n
  {
    if n > 0 {
      StaysCompleteIff(codec, ctx, ops, key, base, n - 1);
      EveryEnvelopeIsJudged(codec, ctx, ops, key, base, n - 1);
      NextStaysComplete(codec, ctx, ops, key, base, n - 1);
      OneMoreClean(codec, ctx, ops, key, base, n - 1);
    } else {
      AfterNothing(codec, ctx, ops, key);
    }
  }
}
