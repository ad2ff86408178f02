/** One tool call on its own: which stages it can reach, and what it carries through any sequence of steps. */
module CallMachine {
  import opened Collections
  import opened ChatSpec

  /** The client that has to execute the call, if any. */
  function Owner(tc: ToolCall): Option<string> {
    if tc.base.contributor.Some? && tc.base.contributor.value.Client? then Some(tc.base.contributor.value.clientId) else None
  }

  predicate IsMcp(tc: ToolCall) {
    tc.base.contributor.Some? && tc.base.contributor.value.Mcp?
  }

  /** The moves of the state machine. */
  predicate MayBecome(a: ToolCall, b: ToolCall) {
    match a
    case Streaming(_, _, _) => b.Streaming? || b.PendingConfirmation? || b.Running? || b.Cancelled?
    case PendingConfirmation(_, _, _, _) => !b.Streaming? && !b.AuthRequired?
    case Running(_, _, _, _, _, _) => !b.Streaming? && (b.AuthRequired? ==> IsMcp(b))
    case AuthRequired(_, _, _, _, _, _, _) => b.AuthRequired? || b.Running? || b.Cancelled? || (b.Completed? && !b.result.success)
    case PendingResult(_, _, _, _, _, _) => b.PendingResult? || b.Completed? || b.Cancelled?
    case Completed(_, _, _, _, _, _) => b == a
    case Cancelled(_, _, _, _, _, _) => b == a
  }

  /** The same call a step later. */
  predicate Lives(a: ToolCall, b: ToolCall) {
    b.base.id == a.base.id && Owner(b) == Owner(a) && MayBecome(a, b)
  }

  lemma UpdateLives(tc: ToolCall, meta: Option<Data>, change: CallChange)
    ensures Lives(tc, UpdateCall(tc, meta, change))
    ensures tc.AuthRequired? && !change.CallAuthResolved? ==> !UpdateCall(tc, meta, change).Running?
  {
  }

  lemma SettleLives(tc: ToolCall)
    ensures Lives(tc, Settle(tc)) && Settled(Settle(tc))
  {
  }

  // ---------- steps ----------

  /** What can happen to one call: an update addressed to it, or the end of its turn. */
  datatype Step = Updated(meta: Option<Data>, change: CallChange) | TurnOver

  function Apply(tc: ToolCall, step: Step): ToolCall {
    match step
    case Updated(meta, change) => UpdateCall(tc, meta, change)
    case TurnOver => Settle(tc)
  }

  function ApplyAll(tc: ToolCall, steps: seq<Step>): ToolCall {
    if |steps| == 0 then tc else Apply(ApplyAll(tc, steps[..|steps| - 1]), steps[|steps| - 1])
  }

  lemma ApplyLives(tc: ToolCall, step: Step)
    ensures Lives(tc, Apply(tc, step))
  {
    match step
    case Updated(meta, change) => UpdateLives(tc, meta, change);
    case TurnOver => SettleLives(tc);
  }

  // ---------- which stages can follow which ----------

  datatype Stage = AtStreaming | AtConfirmation | AtRunning | AtAuth | AtResult | AtCompleted | AtCancelled

  function StageOf(tc: ToolCall): Stage {
    match tc
    case Streaming(_, _, _) => AtStreaming
    case PendingConfirmation(_, _, _, _) => AtConfirmation
    case Running(_, _, _, _, _, _) => AtRunning
    case AuthRequired(_, _, _, _, _, _, _) => AtAuth
    case PendingResult(_, _, _, _, _, _) => AtResult
    case Completed(_, _, _, _, _, _) => AtCompleted
    case Cancelled(_, _, _, _, _, _) => AtCancelled
  }

  /** No result has been delivered yet. */
  predicate BeforeResult(tc: ToolCall) {
    !tc.PendingResult? && !Settled(tc)
  }

  /** A streaming call was never announced; a call without a result can go anywhere past streaming, but waits
      for authentication only if no client owns it; a result under review can only be settled. */
  predicate CanReach(tc: ToolCall, stage: Stage) {
    match stage
    case AtStreaming => tc.Streaming?
    case AtConfirmation => BeforeResult(tc)
    case AtRunning => BeforeResult(tc)
    case AtAuth => tc.AuthRequired? || (BeforeResult(tc) && Owner(tc).None?)
    case AtResult => !Settled(tc)
    case AtCompleted => !tc.Cancelled?
    case AtCancelled => !tc.Completed?
  }

  /** The same call any number of steps later. */
  predicate LaterOf(a: ToolCall, b: ToolCall) {
    b.base.id == a.base.id && Owner(b) == Owner(a) && CanReach(a, StageOf(b)) && (Settled(a) ==> b == a)
  }

  lemma LivesOn(a: ToolCall, b: ToolCall, c: ToolCall)
    requires LaterOf(a, b) && Lives(b, c)
    ensures LaterOf(a, c)
  {
  }

  /** Any number of steps: the same call and the same owner, in a stage that can be reached; and once a call
      is over it never changes. */
  lemma {:induction false} StepsLive(tc: ToolCall, steps: seq<Step>)
    ensures LaterOf(tc, ApplyAll(tc, steps))
    decreases |steps|
  {
    if |steps| > 0 {
      var n := |steps| - 1;
      StepsLive(tc, steps[..n]);
      ApplyLives(ApplyAll(tc, steps[..n]), steps[n]);
      LivesOn(tc, ApplyAll(tc, steps[..n]), ApplyAll(tc, steps));
    }
  }

  const NoPrompt: Prompt := Prompt(None, None, None, None, None)

  function Announcement(confirmed: Option<Confirmed>): Step {
    Updated(None, CallReady(Some(Mcp("")), None, "", None, confirmed, NoPrompt))
  }

  /** Steps that bring a call without a result to run again, owned by a tool server unless by a client. */
  function ToRunning(tc: ToolCall): seq<Step> {
    (if tc.AuthRequired? then [Updated(None, CallAuthResolved)] else []) + [Announcement(Some(NotNeeded))]
  }

  lemma RunsAgain(tc: ToolCall)
    requires BeforeResult(tc)
    ensures var u := ApplyAll(tc, ToRunning(tc)); u.Running? && (Owner(tc).None? ==> IsMcp(u))
  {
    var last := Announcement(Some(NotNeeded));
    if tc.AuthRequired? {
      assert ToRunning(tc) == [Updated(None, CallAuthResolved), last];
      assert ToRunning(tc)[..1] == [Updated(None, CallAuthResolved)];
      assert ApplyAll(tc, [Updated(None, CallAuthResolved)]) == UpdateCall(ApplyAll(tc, []), None, CallAuthResolved);
    } else {
      assert ToRunning(tc) == [last] && [last][..0] == [];
      assert ApplyAll(tc, []) == tc;
    }
  }

  /** One more step from running, or from a result under review. */
  function LastStep(stage: Stage, result: Result): Step {
    match stage
    case AtConfirmation => Announcement(None)
    case AtAuth => Updated(None, CallAuthRequired(Data(0)))
    case AtResult => Updated(None, CallComplete(result, true))
    case AtCompleted => Updated(None, CallComplete(result, false))
    case _ => TurnOver
  }

  lemma OneMore(tc: ToolCall, steps: seq<Step>, step: Step)
    ensures ApplyAll(tc, steps + [step]) == Apply(ApplyAll(tc, steps), step)
  {
    assert (steps + [step])[..|steps|] == steps;
  }

  /** These steps bring the call to that stage. */
  predicate Leads(tc: ToolCall, steps: seq<Step>, stage: Stage) {
    StageOf(ApplyAll(tc, steps)) == stage
  }

  lemma LastStepLeads(u: ToolCall, stage: Stage, result: Result)
    requires u.Running? && stage != AtStreaming && stage != AtRunning && (stage == AtAuth ==> IsMcp(u))
    ensures StageOf(Apply(u, LastStep(stage, result))) == stage
  {
  }

  lemma LeadsFromRunning(tc: ToolCall, stage: Stage) returns (steps: seq<Step>)
    requires BeforeResult(tc) && CanReach(tc, stage) && stage != StageOf(tc)
    ensures Leads(tc, steps, stage)
  {
    RunsAgain(tc);
    steps := ToRunning(tc);
    if stage != AtRunning {
      var result := Result(true, None, Data(0));
      LastStepLeads(ApplyAll(tc, steps), stage, result);
      OneMore(tc, steps, LastStep(stage, result));
      steps := steps + [LastStep(stage, result)];
    }
  }

  lemma LeadsFromResult(tc: ToolCall, stage: Stage) returns (steps: seq<Step>)
    requires tc.PendingResult? && (stage == AtCompleted || stage == AtCancelled)
    ensures Leads(tc, steps, stage)
  {
    var step := if stage == AtCompleted then Updated(None, CallResultConfirmed(true)) else TurnOver;
    OneMore(tc, [], step);
    assert ApplyAll(tc, []) == tc;
    steps := [] + [step];
  }

  /** Exactly which stages a call can reach. */
  lemma StagesReached(tc: ToolCall, stage: Stage)
    ensures (exists steps :: Leads(tc, steps, stage)) <==> CanReach(tc, stage)
  {
    if steps :| Leads(tc, steps, stage) {
      StepsLive(tc, steps);
    }
    if CanReach(tc, stage) {
      if stage == StageOf(tc) {
        assert Leads(tc, [], stage);
      } else if BeforeResult(tc) {
        var steps := LeadsFromRunning(tc, stage);
      } else {
        var steps := LeadsFromResult(tc, stage);
      }
    }
  }

  // ---------- a call that waits for authentication ----------

  lemma BaseSurvives(tc: ToolCall, meta: Option<Data>, change: CallChange)
    requires !change.CallReady?
    ensures SameButMeta(tc.base, UpdateCall(tc, meta, change).base)
  {
  }

  predicate SameButMeta(a: Base, b: Base) {
    b.id == a.id && b.names == a.names && b.intention == a.intention && b.contributor == a.contributor
  }

  /** What ends a call that waits for authentication: the end of its turn, or a failed result. */
  predicate Decides(step: Step) {
    step.TurnOver? || (step.change.CallComplete? && !step.change.result.success)
  }

  function FirstDecision(steps: seq<Step>): (i: nat)
    ensures i <= |steps| && (i < |steps| ==> Decides(steps[i]))
    ensures forall j :: 0 <= j < i ==> !Decides(steps[j])
  {
    if |steps| == 0 then 0
    else
      var n := |steps| - 1;
      var i := FirstDecision(steps[..n]);
      if i < n then i else if Decides(steps[n]) then n else n + 1
  }

  /** The call still waits, with everything it had when it paused. */
  predicate StillPaused(tc: ToolCall, u: ToolCall) {
    && tc.AuthRequired? && u.AuthRequired? && SameButMeta(tc.base, u.base)
    && u.invocation == tc.invocation && u.toolInput == tc.toolInput && u.confirmed == tc.confirmed
    && u.selected == tc.selected && u.content == tc.content && u.auth == tc.auth
  }

  /** The call ended with a failed result, its content the result's own or what there was at the pause. */
  predicate FailedWith(tc: ToolCall, u: ToolCall, result: Result) {
    && tc.AuthRequired? && u.Completed? && SameButMeta(tc.base, u.base)
    && u.invocation == tc.invocation && u.toolInput == tc.toolInput && u.confirmed == tc.confirmed && u.selected == tc.selected
    && !u.result.success && u.result.rest == result.rest && u.result.content == Or(result.content, tc.content)
  }

  /** How a wait that is never resolved stands after some steps: the first decision counts. */
  predicate PausedEnd(tc: ToolCall, steps: seq<Step>, u: ToolCall) {
    var i := FirstDecision(steps);
    if i == |steps| then StillPaused(tc, u)
    else if steps[i].TurnOver? then u.Cancelled? && u.reason == Skipped && SameButMeta(tc.base, u.base)
    else FailedWith(tc, u, steps[i].change.result)
  }

  lemma PausedStep(tc: ToolCall, u: ToolCall, step: Step)
    requires StillPaused(tc, u) && (step.Updated? ==> !step.change.CallAuthResolved?)
    ensures !Decides(step) ==> StillPaused(tc, Apply(u, step))
    ensures step.TurnOver? ==> Apply(u, step).Cancelled? && Apply(u, step).reason == Skipped && SameButMeta(tc.base, Apply(u, step).base)
    ensures step.Updated? && Decides(step) ==> FailedWith(tc, Apply(u, step), step.change.result)
  {
    if step.Updated? && !step.change.CallReady? { BaseSurvives(u, step.meta, step.change); }
  }

  lemma SettledStays(u: ToolCall, step: Step)
    requires Settled(u)
    ensures Apply(u, step) == u
  {
    ApplyLives(u, step);
  }

  /** While nobody resolves the authentication, a waiting call keeps everything it has until it ends. */
  lemma {:induction false} PausedCall(tc: ToolCall, steps: seq<Step>)
    requires tc.AuthRequired? && forall i :: 0 <= i < |steps| && steps[i].Updated? ==> !steps[i].change.CallAuthResolved?
    ensures PausedEnd(tc, steps, ApplyAll(tc, steps))
    decreases |steps|
  {
    if |steps| > 0 {
      var n := |steps| - 1;
      var front, u := steps[..n], ApplyAll(tc, steps[..n]);
      assert forall i :: 0 <= i < n ==> front[i] == steps[i];
      PausedCall(tc, front);
      if FirstDecision(front) < n { SettledStays(u, steps[n]); } else { PausedStep(tc, u, steps[n]); }
    }
  }

  // ---------- what a running call has produced, and under which option ----------

  predicate Executing(tc: ToolCall) {
    tc.Running? || tc.AuthRequired?
  }

  function ContentOf(tc: ToolCall): Option<Data> {
    if Executing(tc) then tc.content else None
  }

  function SelectedOf(tc: ToolCall): Option<ConfirmOption> {
    if Executing(tc) then tc.selected else None
  }

  /** The call is announced as ready, for the first time or again. */
  predicate Announces(tc: ToolCall, step: Step) {
    step.Updated? && step.change.CallReady? && (tc.Streaming? || tc.Running? || tc.PendingConfirmation?)
  }

  predicate Reports(tc: ToolCall, step: Step) {
    step.Updated? && step.change.CallContentChanged? && tc.Running?
  }

  predicate Approves(tc: ToolCall, step: Step) {
    step.Updated? && step.change.CallApproved? && tc.PendingConfirmation?
  }

  /** Announcing a running call again drops what it has produced and the option it runs under. */
  lemma ReannouncingLosesOutput()
    ensures
      var tc := Running(Base("c", Data(0), None, None, None), "m", None, UserAction, Some(ConfirmOption("once", Data(0))), Some(Data(7)));
      var u := UpdateCall(tc, None, CallReady(None, None, "m", None, Some(NotNeeded), NoPrompt));
      u.Running? && u.content.None? && u.selected.None?
  {
  }

  /** Exactly when an update that leaves a running call running keeps both. */
  lemma UpdateKeepsOutputIff(tc: ToolCall, meta: Option<Data>, change: CallChange)
    requires tc.Running? && UpdateCall(tc, meta, change).Running? && !change.CallContentChanged?
    ensures
      var u := UpdateCall(tc, meta, change);
      u.content == tc.content && u.selected == tc.selected <==> !(change.CallReady? && (tc.content.Some? || tc.selected.Some?))
  {
  }

  /** A step that decides about the content, or else about the option. */
  predicate Sets(tc: ToolCall, step: Step, content: bool) {
    Announces(tc, step) || (if content then Reports(tc, step) else Approves(tc, step))
  }

  predicate SetsAt(tc: ToolCall, steps: seq<Step>, content: bool, i: nat)
    requires i < |steps|
  {
    Sets(ApplyAll(tc, steps[..i]), steps[i], content)
  }

  /** One past the last step that decides, or zero. */
  function LastSet(tc: ToolCall, steps: seq<Step>, content: bool): (r: nat)
    ensures r <= |steps|
    ensures r > 0 ==> SetsAt(tc, steps, content, r - 1)
  {
    if |steps| == 0 then 0
    else if SetsAt(tc, steps, content, |steps| - 1) then |steps|
    else
      var r := LastSet(tc, steps[..|steps| - 1], content);
      assert r > 0 ==> steps[..|steps| - 1][..r - 1] == steps[..r - 1];
      r
  }

  lemma {:induction false} NoneSetsAfter(tc: ToolCall, steps: seq<Step>, content: bool, i: nat)
    requires LastSet(tc, steps, content) <= i < |steps|
    ensures !SetsAt(tc, steps, content, i)
    decreases |steps|
  {
    if i < |steps| - 1 {
      NoneSetsAfter(tc, steps[..|steps| - 1], content, i);
      assert steps[..|steps| - 1][..i] == steps[..i];
    }
  }

  /** What step `r - 1` made of the content; the content at the start if no step decided. */
  function ContentSet(tc: ToolCall, steps: seq<Step>, r: nat): Option<Data>
    requires r <= |steps|
  {
    if r == 0 then ContentOf(tc)
    else if steps[r - 1].Updated? && steps[r - 1].change.CallContentChanged? then Some(steps[r - 1].change.partial)
    else None
  }

  /** The option that step `r - 1` chose among those on offer then; the option at the start if no step decided. */
  function OptionSet(tc: ToolCall, steps: seq<Step>, r: nat): Option<ConfirmOption>
    requires r <= |steps|
  {
    if r == 0 then SelectedOf(tc)
    else
      var asked := ApplyAll(tc, steps[..r - 1]);
      if steps[r - 1].Updated? && steps[r - 1].change.CallApproved? && asked.PendingConfirmation? then
        ResolveSelectedOption(asked.prompt.options, steps[r - 1].change.selectedOptionId)
      else None
  }

  lemma ContentStep(u: ToolCall, step: Step)
    requires BeforeResult(Apply(u, step))
    ensures !Sets(u, step, true) ==> ContentOf(Apply(u, step)) == ContentOf(u)
    ensures Announces(u, step) ==> ContentOf(Apply(u, step)).None?
    ensures Reports(u, step) ==> ContentOf(Apply(u, step)) == Some(step.change.partial)
  {
  }

  lemma OptionStep(u: ToolCall, step: Step)
    requires BeforeResult(Apply(u, step))
    ensures !Sets(u, step, false) ==> SelectedOf(Apply(u, step)) == SelectedOf(u)
    ensures Announces(u, step) ==> SelectedOf(Apply(u, step)).None?
    ensures Approves(u, step) ==> SelectedOf(Apply(u, step)) == ResolveSelectedOption(u.prompt.options, step.change.selectedOptionId)
  {
  }

  lemma EarlierBeforeResult(u: ToolCall, step: Step)
    requires BeforeResult(Apply(u, step))
    ensures BeforeResult(u)
  {
    ApplyLives(u, step);
  }

  /** What a call without a result has produced is the last content reported since it was last announced. */
  lemma {:induction false} ContentIsLastReport(tc: ToolCall, steps: seq<Step>)
    requires BeforeResult(ApplyAll(tc, steps))
    ensures ContentOf(ApplyAll(tc, steps)) == ContentSet(tc, steps, LastSet(tc, steps, true))
    decreases |steps|
  {
    if |steps| > 0 {
      var n := |steps| - 1;
      EarlierBeforeResult(ApplyAll(tc, steps[..n]), steps[n]);
      ContentIsLastReport(tc, steps[..n]);
      ContentStep(ApplyAll(tc, steps[..n]), steps[n]);
      ContentSetEarlier(tc, steps, n, LastSet(tc, steps[..n], true));
    }
  }

  lemma ContentSetEarlier(tc: ToolCall, steps: seq<Step>, n: nat, r: nat)
    requires r <= n <= |steps|
    ensures ContentSet(tc, steps[..n], r) == ContentSet(tc, steps, r)
  {
  }

  lemma OptionSetEarlier(tc: ToolCall, steps: seq<Step>, n: nat, r: nat)
    requires r <= n <= |steps|
    ensures OptionSet(tc, steps[..n], r) == OptionSet(tc, steps, r)
  {
    if r > 0 { assert steps[..n][..r - 1] == steps[..r - 1]; }
  }

  /** The option it runs under is the one last approved since then. */
  lemma {:induction false} OptionIsLastChoice(tc: ToolCall, steps: seq<Step>)
    requires BeforeResult(ApplyAll(tc, steps))
    ensures SelectedOf(ApplyAll(tc, steps)) == OptionSet(tc, steps, LastSet(tc, steps, false))
    decreases |steps|
  {
    if |steps| > 0 {
      var n := |steps| - 1;
      var r := LastSet(tc, steps[..n], false);
      EarlierBeforeResult(ApplyAll(tc, steps[..n]), steps[n]);
      OptionIsLastChoice(tc, steps[..n]);
      OptionStep(ApplyAll(tc, steps[..n]), steps[n]);
      OptionSetEarlier(tc, steps, n, r);
    }
  }

  predicate NeverAnnounced(tc: ToolCall, steps: seq<Step>) {
    forall i :: 0 <= i < |steps| ==> !Announces(ApplyAll(tc, steps[..i]), steps[i])
  }

  predicate NeverReported(tc: ToolCall, steps: seq<Step>) {
    forall i :: 0 <= i < |steps| ==> !Reports(ApplyAll(tc, steps[..i]), steps[i])
  }

  /** A running call that is not announced again is never asked about again. */
  lemma {:induction false} NeverAsked(tc: ToolCall, steps: seq<Step>, i: nat)
    requires tc.Running? && NeverAnnounced(tc, steps) && i <= |steps|
    ensures var u := ApplyAll(tc, steps[..i]); !u.Streaming? && !u.PendingConfirmation?
    decreases i
  {
    if i > 0 {
      NeverAsked(tc, steps, i - 1);
      assert steps[..i][..i - 1] == steps[..i - 1];
      assert !Announces(ApplyAll(tc, steps[..i - 1]), steps[i - 1]);
    }
  }

  lemma NothingSet(tc: ToolCall, steps: seq<Step>, content: bool)
    requires tc.Running? && NeverAnnounced(tc, steps) && (content ==> NeverReported(tc, steps))
    ensures LastSet(tc, steps, content) == 0
  {
    var r := LastSet(tc, steps, content);
    if r > 0 { NeverAsked(tc, steps, r - 1); }
  }

  lemma SomethingSet(tc: ToolCall, steps: seq<Step>, content: bool)
    requires !NeverAnnounced(tc, steps)
    ensures LastSet(tc, steps, content) > 0
  {
    var i :| 0 <= i < |steps| && Announces(ApplyAll(tc, steps[..i]), steps[i]);
    if LastSet(tc, steps, content) <= i { NoneSetsAfter(tc, steps, content, i); }
  }

  /** Over any steps that report nothing new, exactly when a call that runs, then and now, still has the
      content it had: it had none, or was never announced again. */
  lemma ContentKeptIff(tc: ToolCall, steps: seq<Step>)
    requires tc.Running? && Executing(ApplyAll(tc, steps)) && NeverReported(tc, steps)
    ensures ApplyAll(tc, steps).content == tc.content <==> tc.content.None? || NeverAnnounced(tc, steps)
  {
    ContentIsLastReport(tc, steps);
    if NeverAnnounced(tc, steps) { NothingSet(tc, steps, true); } else { SomethingSet(tc, steps, true); }
  }

  /** And when it still runs under the option it had: it was never announced again, or the same option was
      chosen at the last approval since (none, if nobody was asked since). */
  lemma OptionKeptIff(tc: ToolCall, steps: seq<Step>)
    requires tc.Running? && Executing(ApplyAll(tc, steps))
    ensures ApplyAll(tc, steps).selected == tc.selected
       <==> NeverAnnounced(tc, steps) || tc.selected == OptionSet(tc, steps, LastSet(tc, steps, false))
  {
    OptionIsLastChoice(tc, steps);
    if NeverAnnounced(tc, steps) { NothingSet(tc, steps, false); }
  }

  /** Asked about once more and approved: the content is gone, and the option is what was chosen from the options
      offered this time. */
  lemma ReapprovalKeepsOutputIff(tc: ToolCall, m1: Option<Data>, ready: CallChange, m2: Option<Data>, approval: CallChange)
    requires tc.Running? && ready.CallReady? && ready.confirmed.None? && approval.CallApproved?
    ensures
      var u := UpdateCall(UpdateCall(tc, m1, ready), m2, approval);
      && u.Running?
      && (u.content == tc.content <==> tc.content.None?)
      && (u.selected == tc.selected <==> tc.selected == ResolveSelectedOption(ready.prompt.options, approval.selectedOptionId))
  {
  }
}
