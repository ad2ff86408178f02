/** What a tool call shows of its life: each field is what the last step that had a say made of it. */
module CallRecord {
  import opened Collections
  import opened ChatSpec
  import opened CallMachine
  import opened ChatHistory

  /** Which changes a call takes at its stage. */
  predicate Accepts(tc: ToolCall, change: CallChange) {
    match change
    case CallDelta(_, _) => tc.Streaming?
    case CallReady(_, _, _, _, _, _) => tc.Streaming? || tc.Running? || tc.PendingConfirmation?
    case CallApproved(_, _, _) => tc.PendingConfirmation?
    case CallDenied(_, _, _) => tc.PendingConfirmation?
    case CallComplete(result, _) => tc.Running? || tc.PendingConfirmation? || (tc.AuthRequired? && !result.success)
    case CallResultConfirmed(_) => tc.PendingResult?
    case CallContentChanged(_) => tc.Running?
    case CallAuthRequired(_) => tc.Running? && IsMcp(tc)
    case CallAuthResolved => tc.AuthRequired?
  }

  predicate Takes(tc: ToolCall, step: Step) {
    step.Updated? && Accepts(tc, step.change)
  }

  /** A change that does not fit the stage of a call leaves it as it is. */
  lemma UnfitIsIgnored(tc: ToolCall, meta: Option<Data>, change: CallChange)
    requires !Accepts(tc, change)
    ensures UpdateCall(tc, meta, change) == tc
  {
  }

  /** What the last step with a say said; `before` if none had. */
  function LastWord<T>(tc: ToolCall, steps: seq<Step>, before: T, word: (ToolCall, Step) -> Option<T>): T {
    if |steps| == 0 then before
    else
      var n := |steps| - 1;
      var said := word(ApplyAll(tc, steps[..n]), steps[n]);
      if said.Some? then said.value else LastWord(tc, steps[..n], before, word)
  }

  // ---------- how it ended ----------

  function EndingOf(tc: ToolCall): Option<(Reason, Option<Data>)> {
    if tc.Cancelled? then Some((tc.reason, tc.feedback)) else None
  }

  /** Why a step cancels a call: it is denied, for the reason given; its result is refused; or its turn is over. */
  function Cancels(tc: ToolCall, step: Step): Option<Option<(Reason, Option<Data>)>> {
    if step.TurnOver? then if Settled(tc) then None else Some(Some((Skipped, None)))
    else if Takes(tc, step) && step.change.CallDenied? then Some(Some((step.change.reason, step.change.feedback)))
    else if Takes(tc, step) && step.change.CallResultConfirmed? && !step.change.approved then Some(Some((ResultDenied, None)))
    else None
  }

  function ResultOf(tc: ToolCall): Option<Result> {
    if tc.PendingResult? || tc.Completed? then Some(tc.result) else None
  }

  /** The result a step delivers; a failure while the call waits for authentication keeps what it had shown, unless it
      brings content of its own. */
  function Delivers(tc: ToolCall, step: Step): Option<Option<Result>> {
    if Takes(tc, step) && step.change.CallComplete? then
      var result := step.change.result;
      Some(Some(if tc.AuthRequired? && result.content.None? then result.(content := tc.content) else result))
    else None
  }

  lemma EndingStep(u: ToolCall, step: Step)
    ensures EndingOf(Apply(u, step)) == if Cancels(u, step).Some? then Cancels(u, step).value else EndingOf(u)
  {
  }

  lemma ResultStep(u: ToolCall, step: Step)
    requires !Apply(u, step).Cancelled?
    ensures ResultOf(Apply(u, step)) == if Delivers(u, step).Some? then Delivers(u, step).value else ResultOf(u)
  {
  }

  /** A call is cancelled exactly when some step cancelled it, and says why. */
  lemma {:induction false} EndingIsLastWord(tc: ToolCall, steps: seq<Step>)
    ensures EndingOf(ApplyAll(tc, steps)) == LastWord(tc, steps, EndingOf(tc), Cancels)
    decreases |steps|
  {
    if |steps| > 0 {
      var n := |steps| - 1;
      EndingIsLastWord(tc, steps[..n]);
      EndingStep(ApplyAll(tc, steps[..n]), steps[n]);
    }
  }

  /** A cancelled call was not cancelled before the step that did it. */
  lemma CancelledStays(u: ToolCall, step: Step)
    requires !Apply(u, step).Cancelled?
    ensures !u.Cancelled?
  {
    ApplyLives(u, step);
  }

  /** Unless it is cancelled, a call has a result exactly when one was delivered, and it is that one. */
  lemma {:induction false} ResultIsLastWord(tc: ToolCall, steps: seq<Step>)
    requires !ApplyAll(tc, steps).Cancelled?
    ensures ResultOf(ApplyAll(tc, steps)) == LastWord(tc, steps, ResultOf(tc), Delivers)
    decreases |steps|
  {
    if |steps| > 0 {
      var n := |steps| - 1;
      CancelledStays(ApplyAll(tc, steps[..n]), steps[n]);
      ResultIsLastWord(tc, steps[..n]);
      ResultStep(ApplyAll(tc, steps[..n]), steps[n]);
    }
  }

  /** Under review until it is accepted: a result was asked to be reviewed, and not approved since. */
  function UnderReview(tc: ToolCall, step: Step): Option<bool> {
    if Takes(tc, step) && step.change.CallComplete? then Some(step.change.requiresResultConfirmation && !tc.AuthRequired?)
    else if Takes(tc, step) && step.change.CallResultConfirmed? then Some(false)
    else if step.TurnOver? then Some(false)
    else None
  }

  lemma ReviewStep(u: ToolCall, step: Step)
    ensures Apply(u, step).PendingResult? == if UnderReview(u, step).Some? then UnderReview(u, step).value else u.PendingResult?
  {
  }

  lemma {:induction false} ReviewIsLastWord(tc: ToolCall, steps: seq<Step>)
    ensures ApplyAll(tc, steps).PendingResult? == LastWord(tc, steps, tc.PendingResult?, UnderReview)
    decreases |steps|
  {
    if |steps| > 0 {
      var n := |steps| - 1;
      ReviewIsLastWord(tc, steps[..n]);
      ReviewStep(ApplyAll(tc, steps[..n]), steps[n]);
    }
  }

  // ---------- how it was allowed to run ----------

  function ConfirmedOf(tc: ToolCall): Option<Confirmed> {
    if tc.Streaming? || tc.PendingConfirmation? || tc.Cancelled? then None else Some(tc.confirmed)
  }

  /** Announced as confirmed, or as not yet; approved; or completed without having been asked. */
  function Confirms(tc: ToolCall, step: Step): Option<Option<Confirmed>> {
    if !Takes(tc, step) then None
    else if step.change.CallReady? then Some(step.change.confirmed)
    else if step.change.CallApproved? then Some(Some(step.change.how))
    else if step.change.CallComplete? && tc.PendingConfirmation? then Some(Some(NotNeeded))
    else None
  }

  lemma ConfirmedStep(u: ToolCall, step: Step)
    requires !Apply(u, step).Cancelled?
    ensures ConfirmedOf(Apply(u, step)) == if Confirms(u, step).Some? then Confirms(u, step).value else ConfirmedOf(u)
  {
  }

  /** What a call runs on, or ran on, is the last confirmation it had. */
  lemma {:induction false} ConfirmedIsLastWord(tc: ToolCall, steps: seq<Step>)
    requires !ApplyAll(tc, steps).Cancelled?
    ensures ConfirmedOf(ApplyAll(tc, steps)) == LastWord(tc, steps, ConfirmedOf(tc), Confirms)
    decreases |steps|
  {
    if |steps| > 0 {
      var n := |steps| - 1;
      CancelledStays(ApplyAll(tc, steps[..n]), steps[n]);
      ConfirmedIsLastWord(tc, steps[..n]);
      ConfirmedStep(ApplyAll(tc, steps[..n]), steps[n]);
    }
  }

  function ChosenOf(tc: ToolCall): Option<ConfirmOption> {
    if tc.Streaming? || tc.PendingConfirmation? then None else tc.selected
  }

  /** The option chosen from those on offer when the call was approved or denied; announcing it again, completing it
      unasked or ending its turn leaves none. */
  function Chooses(tc: ToolCall, step: Step): Option<Option<ConfirmOption>> {
    if step.TurnOver? then if Settled(tc) then None else Some(None)
    else if !Takes(tc, step) then None
    else
      match step.change
      case CallReady(_, _, _, _, _, _) => Some(None)
      case CallApproved(_, _, id) => Some(ResolveSelectedOption(tc.prompt.options, id))
      case CallDenied(_, _, id) => Some(ResolveSelectedOption(tc.prompt.options, id))
      case _ => None
  }

  lemma ChosenStep(u: ToolCall, step: Step)
    ensures ChosenOf(Apply(u, step)) == if Chooses(u, step).Some? then Chooses(u, step).value else ChosenOf(u)
  {
  }

  lemma {:induction false} ChosenIsLastWord(tc: ToolCall, steps: seq<Step>)
    ensures ChosenOf(ApplyAll(tc, steps)) == LastWord(tc, steps, ChosenOf(tc), Chooses)
    decreases |steps|
  {
    if |steps| > 0 {
      var n := |steps| - 1;
      ChosenIsLastWord(tc, steps[..n]);
      ChosenStep(ApplyAll(tc, steps[..n]), steps[n]);
    }
  }

  /** The option chosen is the first on offer with that id. */
  lemma {:induction false} ChosenIsOnOffer(options: seq<ConfirmOption>, id: string)
    ensures
      var chosen := FindOption(options, id);
      if chosen.None? then forall k :: 0 <= k < |options| ==> options[k].id != id
      else exists k :: 0 <= k < |options| && options[k] == chosen.value && chosen.value.id == id && forall j :: 0 <= j < k ==> options[j].id != id
    decreases |options|
  {
    if |options| > 0 && options[0].id != id {
      ChosenIsOnOffer(options[1..], id);
      if FindOption(options, id).Some? {
        var k :| 0 <= k < |options| - 1 && options[1..][k] == FindOption(options, id).value
                 && forall j :: 0 <= j < k ==> options[1..][j].id != id;
        assert options[k + 1] == FindOption(options, id).value;
        forall j | 0 <= j < k + 1 ensures options[j].id != id {
          if j > 0 { assert options[j] == options[1..][j - 1]; }
        }
      } else {
        assert forall k :: 0 < k < |options| ==> options[k] == options[1..][k - 1];
      }
    }
  }

  // ---------- what it is about ----------

  function InvocationOf(tc: ToolCall): string {
    if tc.Streaming? then "" else tc.invocation
  }

  /** The message it is announced with; a call that never was shows its progress when its turn is over. */
  function Describes(tc: ToolCall, step: Step): Option<string> {
    if Takes(tc, step) && step.change.CallReady? then Some(step.change.invocation)
    else if step.TurnOver? && tc.Streaming? then tc.progress
    else None
  }

  function InputOf(tc: ToolCall): Option<ToolInput> {
    if tc.Streaming? then None else tc.toolInput
  }

  /** The input it is announced with, or an edit of inline input on approval. */
  function Feeds(tc: ToolCall, step: Step): Option<Option<ToolInput>> {
    if Takes(tc, step) && step.change.CallReady? && step.change.toolInput.Some? then Some(step.change.toolInput)
    else if Takes(tc, step) && step.change.CallApproved? && step.change.editedToolInput.Some?
            && tc.toolInput.Some? && tc.toolInput.value.Inline? then Some(Some(Inline(step.change.editedToolInput.value)))
    else None
  }

  lemma AboutStep(u: ToolCall, step: Step)
    ensures InvocationOf(Apply(u, step)) == if Describes(u, step).Some? then Describes(u, step).value else InvocationOf(u)
    ensures InputOf(Apply(u, step)) == if Feeds(u, step).Some? then Feeds(u, step).value else InputOf(u)
  {
  }

  /** The message and the input of a call are the last announced, the input as last edited. */
  lemma {:induction false} AboutIsLastWord(tc: ToolCall, steps: seq<Step>)
    ensures InvocationOf(ApplyAll(tc, steps)) == LastWord(tc, steps, InvocationOf(tc), Describes)
    ensures InputOf(ApplyAll(tc, steps)) == LastWord(tc, steps, InputOf(tc), Feeds)
    decreases |steps|
  {
    if |steps| > 0 {
      var n := |steps| - 1;
      AboutIsLastWord(tc, steps[..n]);
      AboutStep(ApplyAll(tc, steps[..n]), steps[n]);
    }
  }

  function MetaIn(tc: ToolCall, step: Step): Option<Option<Data>> {
    if Takes(tc, step) && step.meta.Some? then Some(step.meta) else None
  }

  function IntentionIn(tc: ToolCall, step: Step): Option<Option<string>> {
    if Takes(tc, step) && step.change.CallReady? && step.change.intention.Some? then Some(step.change.intention) else None
  }

  /** A tool server takes over a call that no client owns. */
  function ServerIn(tc: ToolCall, step: Step): Option<Option<Contributor>> {
    if Takes(tc, step) && step.change.CallReady? && Owner(tc).None?
       && step.change.contributor.Some? && step.change.contributor.value.Mcp? then Some(step.change.contributor)
    else None
  }

  lemma BaseStep(u: ToolCall, step: Step)
    ensures Apply(u, step).base.names == u.base.names
    ensures Apply(u, step).base.meta == if MetaIn(u, step).Some? then MetaIn(u, step).value else u.base.meta
  {
  }

  lemma AnnouncedStep(u: ToolCall, step: Step)
    ensures Apply(u, step).base.intention == if IntentionIn(u, step).Some? then IntentionIn(u, step).value else u.base.intention
    ensures Apply(u, step).base.contributor == if ServerIn(u, step).Some? then ServerIn(u, step).value else u.base.contributor
  {
  }

  /** A call keeps its names; its metadata, its intention and its tool server are the last it was given. */
  lemma {:induction false} BaseIsLastWord(tc: ToolCall, steps: seq<Step>)
    ensures
      var b := ApplyAll(tc, steps).base;
      && b.names == tc.base.names
      && b.meta == LastWord(tc, steps, tc.base.meta, MetaIn)
      && b.intention == LastWord(tc, steps, tc.base.intention, IntentionIn)
      && b.contributor == LastWord(tc, steps, tc.base.contributor, ServerIn)
    decreases |steps|
  {
    if |steps| > 0 {
      var n := |steps| - 1;
      BaseIsLastWord(tc, steps[..n]);
      BaseStep(ApplyAll(tc, steps[..n]), steps[n]);
      AnnouncedStep(ApplyAll(tc, steps[..n]), steps[n]);
    }
  }

  // ---------- while it streams, and while it waits to be confirmed ----------

  /** The input streamed by some steps, after what there was; no delta with content leaves it missing. */
  function StreamedInput(before: Option<string>, steps: seq<Step>): Option<string> {
    if |steps| == 0 then before
    else
      var n := |steps| - 1;
      var input := StreamedInput(before, steps[..n]);
      if steps[n].Updated? && steps[n].change.CallDelta? && steps[n].change.content.Some? then
        Some((if input.Some? then input.value else "") + steps[n].change.content.value)
      else input
  }

  function ProgressIn(tc: ToolCall, step: Step): Option<Option<string>> {
    if Takes(tc, step) && step.change.CallDelta? && step.change.progress.Some? then Some(step.change.progress) else None
  }

  lemma StreamingStep(u: ToolCall, step: Step)
    requires Apply(u, step).Streaming?
    ensures u.Streaming? && Apply(u, step).partialInput == StreamedInput(u.partialInput, [step])
    ensures Apply(u, step).progress == if ProgressIn(u, step).Some? then ProgressIn(u, step).value else u.progress
  {
    ApplyLives(u, step);
    assert [step][..0] == [];
  }

  /** As long as a call streams it shows everything streamed so far, in order, and its latest progress. */
  lemma {:induction false} StreamingIsWhatWasStreamed(tc: ToolCall, steps: seq<Step>)
    requires ApplyAll(tc, steps).Streaming?
    ensures
      var u := ApplyAll(tc, steps);
      && tc.Streaming? && u.partialInput == StreamedInput(tc.partialInput, steps)
      && u.progress == LastWord(tc, steps, tc.progress, ProgressIn)
    decreases |steps|
  {
    if |steps| > 0 {
      var n := |steps| - 1;
      StreamingStep(ApplyAll(tc, steps[..n]), steps[n]);
      StreamingIsWhatWasStreamed(tc, steps[..n]);
      OneStreamed(ApplyAll(tc, steps[..n]).partialInput, steps[n]);
    }
  }

  lemma OneStreamed(before: Option<string>, step: Step)
    ensures StreamedInput(before, [step])
         == if step.Updated? && step.change.CallDelta? && step.change.content.Some?
            then Some((if before.Some? then before.value else "") + step.change.content.value) else before
  {
    assert [step][..0] == [];
  }

  function PromptOf(tc: ToolCall): Prompt {
    if tc.PendingConfirmation? then tc.prompt else NoPrompt
  }

  /** One field of the prompt in the words of a step: what an unconfirmed announcement says about it, nothing if the
      call is already waiting and it says nothing. */
  function Asks<T>(tc: ToolCall, step: Step, field: Prompt -> Option<T>): Option<Option<T>> {
    if Takes(tc, step) && step.change.CallReady? && (field(step.change.prompt).Some? || !tc.PendingConfirmation?)
    then Some(field(step.change.prompt)) else None
  }

  function LastAsked<T>(tc: ToolCall, steps: seq<Step>, field: Prompt -> Option<T>): Option<T> {
    LastWord(tc, steps, field(PromptOf(tc)), (u: ToolCall, step: Step) => Asks(u, step, field))
  }

  predicate Waits(tc: ToolCall, steps: seq<Step>, p: Prompt) {
    && p.title == LastAsked(tc, steps, (q: Prompt) => q.title)
    && p.risk == LastAsked(tc, steps, (q: Prompt) => q.risk)
    && p.edits == LastAsked(tc, steps, (q: Prompt) => q.edits)
    && p.editable == LastAsked(tc, steps, (q: Prompt) => q.editable)
    && p.options == LastAsked(tc, steps, (q: Prompt) => q.options)
  }

  ghost predicate Merges<T>(field: Prompt -> Option<T>) {
    forall p, q {:trigger MergePrompt(p, q)} :: field(MergePrompt(p, q)) == Or(field(p), field(q))
  }

  lemma {:induction false} FieldIsLastAsked<T>(tc: ToolCall, steps: seq<Step>, field: Prompt -> Option<T>)
    requires ApplyAll(tc, steps).PendingConfirmation? && Merges(field)
    ensures field(ApplyAll(tc, steps).prompt) == LastAsked(tc, steps, field)
    decreases |steps|
  {
    if |steps| > 0 {
      var n := |steps| - 1;
      var u := ApplyAll(tc, steps[..n]);
      FieldStep(u, steps[n], field);
      if u.PendingConfirmation? { FieldIsLastAsked(tc, steps[..n], field); }
    }
  }

  lemma FieldStep<T>(u: ToolCall, step: Step, field: Prompt -> Option<T>)
    requires Apply(u, step).PendingConfirmation? && Merges(field)
    ensures !u.PendingConfirmation? ==> Asks(u, step, field).Some?
    ensures field(Apply(u, step).prompt) == if Asks(u, step, field).Some? then Asks(u, step, field).value else field(u.prompt)
  {
    if u.PendingConfirmation? && step.Updated? && step.change.CallReady? {
      assert Apply(u, step).prompt == MergePrompt(step.change.prompt, u.prompt);
    }
  }

  /** Whatever a call that waits to be confirmed shows of its prompt is the last it was announced with. */
  lemma PromptIsLastAsked(tc: ToolCall, steps: seq<Step>)
    requires ApplyAll(tc, steps).PendingConfirmation?
    ensures Waits(tc, steps, ApplyAll(tc, steps).prompt)
  {
    FieldIsLastAsked(tc, steps, (q: Prompt) => q.title);
    FieldIsLastAsked(tc, steps, (q: Prompt) => q.risk);
    FieldIsLastAsked(tc, steps, (q: Prompt) => q.edits);
    FieldIsLastAsked(tc, steps, (q: Prompt) => q.editable);
    FieldIsLastAsked(tc, steps, (q: Prompt) => q.options);
  }

  // ---------- whole runs ----------

  /** How a call followed through a whole run ended, and on whose word it ran. */
  lemma OutcomeOverRuns(s: Chat, actions: seq<Action>, w: Place, tc: ToolCall, steps: seq<Step>)
    requires PartAt(s, w) == Some(Call(tc)) && !FollowRun(s, actions, w).Gone?
    requires steps == StepsOf(s, actions, w, tc.base.id)
    ensures
      var q := PartAt(Run(s, actions), FollowRun(s, actions, w));
      && q.Some? && q.value.Call?
      && EndingOf(q.value.call) == LastWord(tc, steps, EndingOf(tc), Cancels)
      && ChosenOf(q.value.call) == LastWord(tc, steps, ChosenOf(tc), Chooses)
      && (!q.value.call.Cancelled? ==>
            && ResultOf(q.value.call) == LastWord(tc, steps, ResultOf(tc), Delivers)
            && ConfirmedOf(q.value.call) == LastWord(tc, steps, ConfirmedOf(tc), Confirms))
  {
    CallIsLocal(s, actions, w, tc);
    EndingIsLastWord(tc, steps);
    ChosenIsLastWord(tc, steps);
    if !ApplyAll(tc, steps).Cancelled? {
      ResultIsLastWord(tc, steps);
      ConfirmedIsLastWord(tc, steps);
    }
  }
}
