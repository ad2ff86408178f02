/** The life of a tool call, followed through a whole run: in the active turn, into the history, and back. */
module ChatHistory {
  import opened Collections
  import opened ChatSpec
  import opened ChatStatus
  import opened CallMachine

  // ---------- what becomes of the parts ----------

  lemma {:induction false} SettlePartsAt(parts: seq<Part>)
    ensures forall i :: 0 <= i < |parts| ==> SettleParts(parts)[i] == SettlePart(parts[i])
    decreases |parts|
  {
    if |parts| > 0 { SettlePartsAt(parts[..|parts| - 1]); }
  }

  // ---------- where a part is ----------

  datatype Place = Gone | InActive(i: nat) | InTurn(j: nat, i: nat)

  function PartAt(s: Chat, w: Place): Option<Part> {
    match w
    case Gone => None
    case InActive(i) => if s.active.Some? && i < |s.active.value.parts| then Some(s.active.value.parts[i]) else None
    case InTurn(j, i) => if j < |s.turns| && i < |s.turns[j].parts| then Some(s.turns[j].parts[i]) else None
  }

  /** Where an action takes the part at a place. */
  function Follow(s: Chat, a: Action, w: Place): Place {
    match w
    case Gone => Gone
    case InActive(i) =>
      if a.TurnStarted? || (a.Truncated? && TouchOf(s, a).Derives?) then Gone
      else if (a.TurnEnds? || a.TurnFails?) && IsActive(s, a.turnId) then InTurn(|s.turns|, i)
      else w
    case InTurn(j, i) =>
      if a.TurnResumes? && CanResume(s, a.turnId) && j == |s.turns| - 1 then InActive(i)
      else if a.TurnsLoaded? then InTurn(|Older(a.turns, s.turns)| + j, i)
      else if a.Truncated? && TouchOf(s, a).Derives? && (a.lastTurnId.None? || j > IndexOfTurn(s.turns, a.lastTurnId.value)) then Gone
      else w
  }

  function FollowRun(s: Chat, actions: seq<Action>, w: Place): Place {
    if |actions| == 0 then w
    else Follow(Run(s, actions[..|actions| - 1]), actions[|actions| - 1], FollowRun(s, actions[..|actions| - 1], w))
  }

  // ---------- one step ----------

  /** The step an action is for the call of that id at that place, if any. */
  function StepOf(s: Chat, a: Action, w: Place, id: string): seq<Step> {
    if !w.InActive? then []
    else if a.CallUpdate? && IsActive(s, a.turnId) && a.toolCallId == id then [Updated(a.meta, a.change)]
    else if (a.TurnEnds? || a.TurnFails?) && IsActive(s, a.turnId) then [TurnOver]
    else []
  }

  /** A part of a turn that ends: its call is settled. */
  lemma EntersHistory(s: Chat, a: Action, i: nat)
    requires s.active.Some? && i < |s.active.value.parts| && (a.TurnEnds? || a.TurnFails?) && IsActive(s, a.turnId)
    ensures
      var t := Reduce(s, a);
      |t.turns| == |s.turns| + 1 && i < |t.turns[|s.turns|].parts|
      && t.turns[|s.turns|].parts[i] == SettlePart(s.active.value.parts[i])
  {
    SettlePartsAt(s.active.value.parts);
  }

  /** A part of the history is carried along unchanged. */
  lemma HistoryFollows(s: Chat, a: Action, j: nat, i: nat)
    requires PartAt(s, InTurn(j, i)).Some? && !Follow(s, a, InTurn(j, i)).Gone?
    ensures PartAt(Reduce(s, a), Follow(s, a, InTurn(j, i))) == PartAt(s, InTurn(j, i))
  {
    if a.TurnsLoaded? {
      LoadingFollows(s, a, j, i);
    } else if MovesTurn(a) {
      TurnFollows(s, a, j, i);
    } else {
      HistoryUntouched(s, a);
    }
  }

  lemma LoadingFollows(s: Chat, a: Action, j: nat, i: nat)
    requires PartAt(s, InTurn(j, i)).Some? && a.TurnsLoaded?
    ensures PartAt(Reduce(s, a), Follow(s, a, InTurn(j, i))) == PartAt(s, InTurn(j, i))
  {
  }

  lemma TurnFollows(s: Chat, a: Action, j: nat, i: nat)
    requires PartAt(s, InTurn(j, i)).Some? && MovesTurn(a) && !Follow(s, a, InTurn(j, i)).Gone?
    ensures PartAt(Reduce(s, a), Follow(s, a, InTurn(j, i))) == PartAt(s, InTurn(j, i))
  {
    if a.Truncated? { TruncationFollows(s, a, j, i); }
  }

  lemma TruncationFollows(s: Chat, a: Action, j: nat, i: nat)
    requires PartAt(s, InTurn(j, i)).Some? && a.Truncated? && !Follow(s, a, InTurn(j, i)).Gone?
    ensures PartAt(Reduce(s, a), Follow(s, a, InTurn(j, i))) == PartAt(s, InTurn(j, i))
  {
  }

  /** An update reaches the calls of its id and no other part. */
  lemma UpdateReaches(s: Chat, a: Action, i: nat)
    requires s.active.Some? && i < |s.active.value.parts| && a.CallUpdate? && IsActive(s, a.turnId)
    ensures
      var t := Reduce(s, a);
      && t.active.Some? && i < |t.active.value.parts|
      && t.active.value.parts[i] == UpdatePart(s.active.value.parts[i], a.toolCallId, a.meta, a.change)
  {
    UpdateCallsAt(s.active.value.parts, a.toolCallId, a.meta, a.change);
  }

  /** A call followed through one action has taken the step the action is for it, and no other. */
  lemma CallAfter(s: Chat, a: Action, w: Place, tc: ToolCall)
    requires PartAt(s, w) == Some(Call(tc)) && !Follow(s, a, w).Gone?
    ensures PartAt(Reduce(s, a), Follow(s, a, w)) == Some(Call(ApplyAll(tc, StepOf(s, a, w, tc.base.id))))
  {
    NoStep(tc);
    match w {
      case InActive(i) =>
        if a.CallUpdate? && IsActive(s, a.turnId) {
          UpdateReaches(s, a, i);
          OneStep(tc, Updated(a.meta, a.change));
        } else if Follow(s, a, w) != w {
          EntersHistory(s, a, i);
          OneStep(tc, TurnOver);
        } else {
          CallUntouched(s, a, i);
        }
      case InTurn(j, i) => HistoryFollows(s, a, j, i);
    }
  }

  lemma NoStep(tc: ToolCall)
    ensures ApplyAll(tc, []) == tc
  {
  }

  lemma OneStep(tc: ToolCall, step: Step)
    ensures ApplyAll(tc, [step]) == Apply(tc, step)
  {
    assert [step] == [] + [step];
    OneMore(tc, [], step);
  }

  /** Nothing but an update of calls changes a call of the active turn while the turn goes on. */
  lemma CallUntouched(s: Chat, a: Action, i: nat)
    requires s.active.Some? && i < |s.active.value.parts| && s.active.value.parts[i].Call?
    requires Follow(s, a, InActive(i)) == InActive(i) && !(a.CallUpdate? && IsActive(s, a.turnId))
    ensures
      var t := Reduce(s, a);
      t.active.Some? && i < |t.active.value.parts| && t.active.value.parts[i] == s.active.value.parts[i]
  {
    if MovesTurn(a) {
      TurnUntouched(s, a, i);
    } else if a.InputRequested? || a.InputCompleted? || a.InputAnswerChanged? {
      InputKeepsCalls(s, a, i);
    } else if a.TextDelta? || a.ReasoningDelta? {
      DeltaKeepsCalls(s, a, i);
    } else {
      ActiveKeepsCalls(s, a, i);
    }
  }

  lemma TurnUntouched(s: Chat, a: Action, i: nat)
    requires s.active.Some? && MovesTurn(a) && Follow(s, a, InActive(i)) == InActive(i)
    ensures Reduce(s, a).active == s.active
  {
  }

  lemma InputKeepsCalls(s: Chat, a: Action, i: nat)
    requires s.active.Some? && i < |s.active.value.parts| && s.active.value.parts[i].Call?
    requires a.InputRequested? || a.InputCompleted? || a.InputAnswerChanged?
    ensures
      var t := Reduce(s, a);
      t.active.Some? && i < |t.active.value.parts| && t.active.value.parts[i] == s.active.value.parts[i]
  {
    var parts := s.active.value.parts;
    match a
    case InputRequested(request) =>
      assert !IsOpenRequest(parts[i], request.id);
      assert UpsertParts(parts, request)[i] == parts[i];
    case InputCompleted(requestId, _, _) => assert FindOpen(parts, requestId) != i;
    case InputAnswerChanged(requestId, _, _) => assert FindOpen(parts, requestId) != i;
    case _ =>
  }

  lemma DeltaKeepsCalls(s: Chat, a: Action, i: nat)
    requires s.active.Some? && i < |s.active.value.parts| && s.active.value.parts[i].Call? && (a.TextDelta? || a.ReasoningDelta?)
    ensures
      var t := Reduce(s, a);
      t.active.Some? && i < |t.active.value.parts| && t.active.value.parts[i] == s.active.value.parts[i]
  {
  }

  lemma ActiveKeepsCalls(s: Chat, a: Action, i: nat)
    requires s.active.Some? && i < |s.active.value.parts| && s.active.value.parts[i].Call?
    requires !MovesTurn(a) && !a.InputRequested? && !a.InputCompleted? && !a.InputAnswerChanged? && !a.TextDelta? && !a.ReasoningDelta?
    requires !(a.CallUpdate? && IsActive(s, a.turnId))
    ensures
      var t := Reduce(s, a);
      t.active.Some? && i < |t.active.value.parts| && t.active.value.parts[i] == s.active.value.parts[i]
  {
    if a.CallUpdate? {
      assert Reduce(s, a).active == s.active;
    } else if a.ResponsePart? || a.CallStart? || a.Usage? {
      assert |Reduce(s, a).active.value.parts| >= |s.active.value.parts|;
    } else {
      ActiveUntouched(s, a);
    }
  }

  lemma ActiveUntouched(s: Chat, a: Action)
    requires !MovesTurn(a) && !MovesPart(a) && !a.InputAnswerChanged? && !a.TextDelta? && !a.ReasoningDelta?
    requires !a.ResponsePart? && !a.CallStart? && !a.Usage?
    ensures Reduce(s, a).active == s.active
  {
  }

  // ---------- whole runs ----------

  /** The steps a run holds for a call followed from a place. */
  function StepsOf(s: Chat, actions: seq<Action>, w: Place, id: string): seq<Step> {
    if |actions| == 0 then []
    else
      var front := actions[..|actions| - 1];
      StepsOf(s, front, w, id) + StepOf(Run(s, front), actions[|actions| - 1], FollowRun(s, front, w), id)
  }

  /** Whatever else a run does, a call at its end is the call at its start taken through the steps addressed to it. */
  lemma {:induction false} CallIsLocal(s: Chat, actions: seq<Action>, w: Place, tc: ToolCall)
    requires PartAt(s, w) == Some(Call(tc)) && !FollowRun(s, actions, w).Gone?
    ensures PartAt(Run(s, actions), FollowRun(s, actions, w)) == Some(Call(ApplyAll(tc, StepsOf(s, actions, w, tc.base.id))))
    decreases |actions|
  {
    NoStep(tc);
    if |actions| > 0 {
      var n := |actions| - 1;
      CallIsLocal(s, actions[..n], w, tc);
      CallIsLocalNext(Run(s, actions[..n]), actions[n], FollowRun(s, actions[..n], w), tc, StepsOf(s, actions[..n], w, tc.base.id));
    }
  }

  lemma CallIsLocalNext(t: Chat, a: Action, v: Place, tc: ToolCall, steps: seq<Step>)
    requires PartAt(t, v) == Some(Call(ApplyAll(tc, steps))) && !Follow(t, a, v).Gone?
    ensures PartAt(Reduce(t, a), Follow(t, a, v)) == Some(Call(ApplyAll(tc, steps + StepOf(t, a, v, tc.base.id))))
  {
    StepsLive(tc, steps);
    CallAfter(t, a, v, ApplyAll(tc, steps));
    StepsCompose(tc, steps, StepOf(t, a, v, tc.base.id));
  }

  lemma StepsCompose(tc: ToolCall, steps: seq<Step>, more: seq<Step>)
    requires |more| <= 1
    ensures ApplyAll(tc, steps + more) == ApplyAll(ApplyAll(tc, steps), more)
  {
    if |more| == 0 {
      assert steps + more == steps;
    } else {
      assert more == [more[0]];
      OneMore(tc, steps, more[0]);
      OneStep(ApplyAll(tc, steps), more[0]);
    }
  }

  /** Every update among the steps is an action of the run that names the call. */
  lemma {:induction false} StepsAreActions(s: Chat, actions: seq<Action>, w: Place, id: string, st: Step)
    requires st in StepsOf(s, actions, w, id) && st.Updated?
    ensures exists k :: 0 <= k < |actions| && Carries(actions[k], id, st)
    decreases |actions|
  {
    var n := |actions| - 1;
    if st in StepsOf(s, actions[..n], w, id) {
      StepsAreActions(s, actions[..n], w, id, st);
      var k :| 0 <= k < n && Carries(actions[..n][k], id, st);
      assert Carries(actions[k], id, st);
    } else {
      assert Carries(actions[n], id, st);
    }
  }

  predicate Carries(a: Action, id: string, st: Step) {
    a.CallUpdate? && a.toolCallId == id && st == Updated(a.meta, a.change)
  }

  /** A tool call over a whole run, wherever it goes: it keeps its id and its owner, so a client-owned call
      keeps its client and no call becomes client-owned later; it is in a stage that its stage can reach; and
      once it is over it never changes again. */
  lemma CallsOverRuns(s: Chat, actions: seq<Action>, w: Place, tc: ToolCall)
    requires PartAt(s, w) == Some(Call(tc)) && !FollowRun(s, actions, w).Gone?
    ensures
      var q := PartAt(Run(s, actions), FollowRun(s, actions, w));
      && q.Some? && q.value.Call?
      && q.value.call.base.id == tc.base.id && Owner(q.value.call) == Owner(tc)
      && CanReach(tc, StageOf(q.value.call))
      && (Settled(tc) ==> q.value.call == tc)
  {
    CallIsLocal(s, actions, w, tc);
    StepsLive(tc, StepsOf(s, actions, w, tc.base.id));
  }

  predicate Resolves(a: Action, toolCallId: string) {
    a.CallUpdate? && a.toolCallId == toolCallId && a.change.CallAuthResolved?
  }

  lemma NoResolvingStep(s: Chat, actions: seq<Action>, w: Place, id: string)
    requires forall k :: 0 <= k < |actions| ==> !Resolves(actions[k], id)
    ensures
      var steps := StepsOf(s, actions, w, id);
      forall i :: 0 <= i < |steps| && steps[i].Updated? ==> !steps[i].change.CallAuthResolved?
  {
    var steps := StepsOf(s, actions, w, id);
    forall i | 0 <= i < |steps| && steps[i].Updated? ensures !steps[i].change.CallAuthResolved? {
      StepsAreActions(s, actions, w, id, steps[i]);
    }
  }

  /** A call that waits for authentication, over a run that never resolves it: unless its turn ends or it is
      failed it still waits with all it had; failed first, it completes with that failure and keeps its
      confirmation, its option and, if the result brings none, its content. So it never succeeds. */
  lemma PausedOverRuns(s: Chat, actions: seq<Action>, w: Place, tc: ToolCall)
    requires PartAt(s, w) == Some(Call(tc)) && !FollowRun(s, actions, w).Gone?
    requires tc.AuthRequired? && forall k :: 0 <= k < |actions| ==> !Resolves(actions[k], tc.base.id)
    ensures
      var q := PartAt(Run(s, actions), FollowRun(s, actions, w));
      q.Some? && q.value.Call? && PausedEnd(tc, StepsOf(s, actions, w, tc.base.id), q.value.call)
  {
    NoResolvingStep(s, actions, w, tc.base.id);
    CallIsLocal(s, actions, w, tc);
    PausedCall(tc, StepsOf(s, actions, w, tc.base.id));
  }

  /** A call still waiting for authentication, or one that ended without it. */
  predicate NeverAuthenticated(tc: ToolCall) {
    tc.AuthRequired? || tc.Cancelled? || (tc.Completed? && !tc.result.success)
  }

  /** From waiting for authentication there is no success without an auth-resolved step for that call. */
  lemma NoSuccessWithoutAuth(s: Chat, actions: seq<Action>, w: Place, tc: ToolCall)
    requires PartAt(s, w) == Some(Call(tc)) && !FollowRun(s, actions, w).Gone?
    requires tc.AuthRequired? && forall k :: 0 <= k < |actions| ==> !Resolves(actions[k], tc.base.id)
    ensures
      var q := PartAt(Run(s, actions), FollowRun(s, actions, w));
      q.Some? && q.value.Call? && NeverAuthenticated(q.value.call)
  {
    PausedOverRuns(s, actions, w, tc);
  }

  /** What a call without a result shows at the end of a run: the content last reported, under the option last
      approved, since it was last announced. */
  lemma OutputOverRuns(s: Chat, actions: seq<Action>, w: Place, tc: ToolCall, steps: seq<Step>)
    requires PartAt(s, w) == Some(Call(tc)) && !FollowRun(s, actions, w).Gone?
    requires steps == StepsOf(s, actions, w, tc.base.id)
    ensures
      var q := PartAt(Run(s, actions), FollowRun(s, actions, w));
      && q.Some? && q.value.Call?
      && (BeforeResult(q.value.call) ==>
            && ContentOf(q.value.call) == ContentSet(tc, steps, LastSet(tc, steps, true))
            && SelectedOf(q.value.call) == OptionSet(tc, steps, LastSet(tc, steps, false)))
  {
    CallIsLocal(s, actions, w, tc);
    if BeforeResult(ApplyAll(tc, steps)) {
      ContentIsLastReport(tc, steps);
      OptionIsLastChoice(tc, steps);
    }
  }

  /** A running call still has its content and option after a run that reports nothing new exactly when it was
      never announced again, or had no content to lose and was approved under the same option since. */
  lemma OutputKeptOverRunsIff(s: Chat, actions: seq<Action>, w: Place, tc: ToolCall, steps: seq<Step>)
    requires PartAt(s, w) == Some(Call(tc)) && !FollowRun(s, actions, w).Gone? && tc.Running?
    requires steps == StepsOf(s, actions, w, tc.base.id) && NeverReported(tc, steps)
    ensures
      var q := PartAt(Run(s, actions), FollowRun(s, actions, w));
      && q.Some? && q.value.Call?
      && (Executing(q.value.call) ==>
            && (q.value.call.content == tc.content <==> NeverAnnounced(tc, steps) || tc.content.None?)
            && (q.value.call.selected == tc.selected
                <==> NeverAnnounced(tc, steps) || tc.selected == OptionSet(tc, steps, LastSet(tc, steps, false))))
  {
    CallIsLocal(s, actions, w, tc);
    if Executing(ApplyAll(tc, steps)) {
      ContentKeptIff(tc, steps);
      OptionKeptIff(tc, steps);
    }
  }

  // ---------- what the history holds ----------

  ghost predicate AllSettled(parts: seq<Part>) {
    forall i :: 0 <= i < |parts| && parts[i].Call? ==> Settled(parts[i].call)
  }

  predicate WellTyped(p: Part) {
    p.Call? && p.call.AuthRequired? ==> IsMcp(p.call)
  }

  ghost predicate AllWellTyped(parts: seq<Part>) {
    forall i :: 0 <= i < |parts| ==> WellTyped(parts[i])
  }

  ghost predicate SettledTurns(turns: seq<Turn>) {
    forall j :: 0 <= j < |turns| ==> AllSettled(turns[j].parts)
  }

  /** The history holds only calls that are over, and only calls from a tool server wait for authentication. */
  ghost predicate Inv(s: Chat) {
    SettledTurns(s.turns) && (s.active.Some? ==> AllWellTyped(s.active.value.parts))
  }

  /** What comes from outside fits: parts are well typed, loaded turns are over. */
  ghost predicate Fits(a: Action) {
    && (a.ResponsePart? ==> WellTyped(a.part))
    && (a.TurnsLoaded? ==> SettledTurns(a.turns))
  }

  lemma UpdatedWellTyped(parts: seq<Part>, toolCallId: string, meta: Option<Data>, change: CallChange)
    requires AllWellTyped(parts)
    ensures AllWellTyped(UpdateCalls(parts, toolCallId, meta, change))
  {
    UpdateCallsAt(parts, toolCallId, meta, change);
  }

  lemma ActiveStaysWellTyped(s: Chat, a: Action)
    requires Inv(s) && Fits(a) && Reduce(s, a).active.Some?
    ensures AllWellTyped(Reduce(s, a).active.value.parts)
  {
    if MovesTurn(a) {
      TurnWellTyped(s, a);
    } else if a.CallUpdate? {
      UpdatedWellTyped(s.active.value.parts, a.toolCallId, a.meta, a.change);
    } else {
      PartsWellTyped(s, a);
    }
  }

  lemma TurnWellTyped(s: Chat, a: Action)
    requires Inv(s) && MovesTurn(a) && Reduce(s, a).active.Some?
    ensures AllWellTyped(Reduce(s, a).active.value.parts)
  {
    if a.TurnResumes? && CanResume(s, a.turnId) { assert AllSettled(s.turns[|s.turns| - 1].parts); }
  }

  lemma PartsWellTyped(s: Chat, a: Action)
    requires Inv(s) && Fits(a) && !MovesTurn(a) && !a.CallUpdate? && Reduce(s, a).active.Some?
    ensures AllWellTyped(Reduce(s, a).active.value.parts)
  {
  }

  /** The record of an ended turn: only settled calls. */
  lemma EndedTurnSettled(active: ActiveTurn, state: TurnState, duration: int, failure: seq<Part>)
    requires forall k :: 0 <= k < |failure| ==> failure[k].Failure?
    ensures AllSettled(EndedTurn(active, state, duration, failure).parts)
  {
    SettlePartsAt(active.parts);
  }

  /** The ways the history changes. */
  datatype HistoryChange = Same | AppendOne(turn: Turn) | PopLast | KeepPrefix(n: nat) | Prepend(older: seq<Turn>)

  predicate Changed(before: seq<Turn>, c: HistoryChange, after: seq<Turn>) {
    match c
    case Same => after == before
    case AppendOne(turn) => after == before + [turn]
    case PopLast => |before| > 0 && after == before[..|before| - 1]
    case KeepPrefix(n) => n <= |before| && after == before[..n]
    case Prepend(older) => after == older + before
  }

  /** Every step changes the history in one of these ways, and no turn in it is ever edited. */
  lemma HistoryOnlyMoves(s: Chat, a: Action) returns (c: HistoryChange)
    ensures Changed(s.turns, c, Reduce(s, a).turns)
    ensures c.AppendOne? ==> s.active.Some? && c.turn.id == s.active.value.id && AllSettled(c.turn.parts)
    ensures c.PopLast? ==> Reduce(s, a).active.Some? && Reduce(s, a).active.value.parts == s.turns[|s.turns| - 1].parts
    ensures c.Prepend? ==> a.TurnsLoaded? && forall k :: 0 <= k < |c.older| ==> c.older[k] in a.turns
  {
    c := Same;
    match a {
      case TurnEnds(turnId, duration, cancelled) =>
        c := EndingMoves(s, turnId, if cancelled then TurnCancelled else TurnComplete, duration, []);
      case TurnFails(turnId, duration, error, resumable) =>
        c := EndingMoves(s, turnId, TurnError, duration, [Failure(error, resumable)]);
      case TurnResumes(turnId) => if CanResume(s, turnId) { c := PopLast; }
      case Truncated(lastTurnId) => c := TruncatingMoves(s, lastTurnId);
      case TurnsLoaded(turns, _) => c := Prepend(Older(turns, s.turns));
      case _ => HistoryUntouched(s, a);
    }
  }

  lemma HistoryUntouched(s: Chat, a: Action)
    requires !a.TurnEnds? && !a.TurnFails? && !a.TurnResumes? && !a.Truncated? && !a.TurnsLoaded?
    ensures Reduce(s, a).turns == s.turns
  {
  }

  lemma EndingMoves(s: Chat, turnId: string, state: TurnState, duration: int, failure: seq<Part>) returns (c: HistoryChange)
    requires forall k :: 0 <= k < |failure| ==> failure[k].Failure?
    ensures Changed(s.turns, c, EndTurn(s, turnId, state, duration, failure).turns) && (c.AppendOne? || c.Same?)
    ensures c.AppendOne? ==> s.active.Some? && c.turn.id == s.active.value.id && AllSettled(c.turn.parts)
  {
    c := Same;
    if IsActive(s, turnId) {
      EndedTurnSettled(s.active.value, state, duration, failure);
      c := AppendOne(EndedTurn(s.active.value, state, duration, failure));
    }
  }

  lemma TruncatingMoves(s: Chat, lastTurnId: Option<string>) returns (c: HistoryChange)
    ensures Changed(s.turns, c, Truncate(s, lastTurnId).turns) && (c.KeepPrefix? || c.Same?)
  {
    c := Same;
    if lastTurnId.None? { c := KeepPrefix(0); }
    else if IndexOfTurn(s.turns, lastTurnId.value) < |s.turns| { c := KeepPrefix(IndexOfTurn(s.turns, lastTurnId.value) + 1); }
  }

  lemma HistoryStaysSettled(s: Chat, a: Action)
    requires Inv(s) && Fits(a)
    ensures SettledTurns(Reduce(s, a).turns)
  {
    var c := HistoryOnlyMoves(s, a);
    if c.Prepend? {
      forall k | 0 <= k < |c.older| ensures AllSettled(c.older[k].parts) {
        var j :| 0 <= j < |a.turns| && a.turns[j] == c.older[k];
      }
    }
  }

  /** Over whole runs the history holds only calls that are over, and no call but a tool server's ever waits
      for authentication. */
  lemma {:induction false} HistoryOverRuns(s: Chat, actions: seq<Action>)
    requires Inv(s) && forall k :: 0 <= k < |actions| ==> Fits(actions[k])
    ensures Inv(Run(s, actions))
    decreases |actions|
  {
    if |actions| > 0 {
      var n := |actions| - 1;
      HistoryOverRuns(s, actions[..n]);
      var t := Run(s, actions[..n]);
      HistoryStaysSettled(t, actions[n]);
      if Reduce(t, actions[n]).active.Some? { ActiveStaysWellTyped(t, actions[n]); }
    }
  }
}
