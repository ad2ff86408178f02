/** What a tool call, a turn or an input request carries from one stage to the next, and which steps undo
    each other. */
module ChatCalls {
  import opened Collections
  import opened ChatSpec

  // ---------- tool calls ----------

  /** Pausing for authentication and resuming gives the running call back, with nothing but its metadata changed. */
  lemma AuthRoundTrip(tc: ToolCall, m1: Option<Data>, m2: Option<Data>, auth: Data)
    requires tc.Running? && tc.base.contributor.Some? && tc.base.contributor.value.Mcp?
    ensures
      var paused := UpdateCall(tc, m1, CallAuthRequired(auth));
      && paused.AuthRequired? && paused.auth == auth
      && UpdateCall(paused, m2, CallAuthResolved)
         == Running(tc.base.(meta := Or(m2, Or(m1, tc.base.meta))), tc.invocation, tc.toolInput, tc.confirmed, tc.selected, tc.content)
  {
  }

  /** Reviewing a result and approving it ends exactly as completing without a review. */
  lemma ApprovedReviewIsTransparent(tc: ToolCall, meta: Option<Data>, result: Result)
    requires tc.Running? || tc.PendingConfirmation?
    ensures
      var reviewed := UpdateCall(tc, meta, CallComplete(result, true));
      && reviewed.PendingResult? && reviewed.result == result
      && UpdateCall(reviewed, None, CallResultConfirmed(true)) == UpdateCall(tc, meta, CallComplete(result, false))
  {
  }

  /** What will be executed: the message and the input of a call past streaming. */
  predicate SameInput(a: ToolCall, b: ToolCall) {
    !a.Streaming? && !b.Streaming? && b.invocation == a.invocation && b.toolInput == a.toolInput
  }

  /** Only announcing the call again, or an approval that edits inline input, changes what will be executed. */
  lemma InputSurvives(tc: ToolCall, meta: Option<Data>, change: CallChange)
    requires !tc.Streaming? && !change.CallReady?
    ensures SameInput(tc, UpdateCall(tc, meta, change)) <==>
      !(change.CallApproved? && tc.PendingConfirmation? && change.editedToolInput.Some?
        && tc.toolInput.Some? && tc.toolInput.value.Inline? && tc.toolInput.value.text != change.editedToolInput.value)
  {
  }

  /** The deltas of a streaming call, one after the other. */
  function Stream(tc: ToolCall, chunks: seq<string>): ToolCall {
    if |chunks| == 0 then tc
    else UpdateCall(Stream(tc, chunks[..|chunks| - 1]), None, CallDelta(Some(chunks[|chunks| - 1]), None))
  }

  function Joined(chunks: seq<string>): string {
    if |chunks| == 0 then "" else Joined(chunks[..|chunks| - 1]) + chunks[|chunks| - 1]
  }

  /** The partial input is everything streamed so far, in order. */
  lemma {:induction false} DeltasAccumulate(tc: ToolCall, chunks: seq<string>)
    requires tc.Streaming? && |chunks| > 0
    ensures Stream(tc, chunks)
         == tc.(partialInput := Some((if tc.partialInput.Some? then tc.partialInput.value else "") + Joined(chunks)))
    decreases |chunks|
  {
    var n := |chunks| - 1;
    if n == 0 {
      assert chunks[..0] == [] && Joined(chunks) == "" + chunks[0];
      assert "" + chunks[0] == chunks[0];
    } else {
      DeltasAccumulate(tc, chunks[..n]);
      var start := if tc.partialInput.Some? then tc.partialInput.value else "";
      assert (start + Joined(chunks[..n])) + chunks[n] == start + (Joined(chunks[..n]) + chunks[n]);
    }
  }

  // ---------- turns ----------

  /** Resuming a failed turn brings it back: same turn, same start, message and usage, its parts with the
      open calls settled and the failure last; the history is as before the failure. */
  lemma ResumeUndoesFailure(s: Chat, turnId: string, duration: int, error: Data)
    requires IsActive(s, turnId)
    ensures
      var t := Reduce(Reduce(s, TurnFails(turnId, duration, error, true)), TurnResumes(turnId));
      var active := s.active.value;
      && t.turns == s.turns
      && t.active == Some(active.(parts := SettleParts(active.parts) + [Failure(error, true)]))
  {
    var failed := Reduce(s, TurnFails(turnId, duration, error, true));
    var turn := EndedTurn(s.active.value, TurnError, duration, [Failure(error, true)]);
    assert failed.turns == s.turns + [turn];
    assert turn.parts[|turn.parts| - 1] == Failure(error, true);
    assert failed.turns[..|failed.turns| - 1] == s.turns;
  }

  /** A failure that is not resumable, or a turn that ended well, stays in the history. */
  lemma OnlyResumableFailuresResume(s: Chat, turnId: string, end: Action)
    requires IsActive(s, turnId)
    requires (end.TurnEnds? || (end.TurnFails? && !end.resumable)) && end.turnId == turnId
    ensures Reduce(Reduce(s, end), TurnResumes(turnId)) == Reduce(s, end)
  {
    var ended := Reduce(s, end);
    assert ended.turns[|ended.turns| - 1].id == turnId;
    if end.TurnFails? {
      var parts := ended.turns[|ended.turns| - 1].parts;
      assert parts[|parts| - 1] == Failure(end.error, false);
    }
  }

  // ---------- input requests ----------

  /** The draft answers of the first open request of an id. */
  function Drafts(s: Chat, requestId: string): Option<Answers> {
    if s.active.None? then None
    else
      var parts := s.active.value.parts;
      var i := FindOpen(parts, requestId);
      if i == |parts| then None else Some(AnswersOf(parts[i].request))
  }

  /** The request stays the first open one of its id when its answers change. */
  lemma FindOpenStays(parts: seq<Part>, requestId: string, answers: Option<Answers>)
    requires FindOpen(parts, requestId) < |parts|
    ensures
      var i := FindOpen(parts, requestId);
      FindOpen(parts[i := Input(parts[i].request.(answers := answers), None)], requestId) == i
  {
    var i := FindOpen(parts, requestId);
    FirstOpenAt(parts[i := Input(parts[i].request.(answers := answers), None)], requestId, i);
  }

  /** Answering a question sets that draft and no other; taking the answer back removes it and no other. */
  lemma DraftChanges(s: Chat, requestId: string, questionId: string, answer: Option<Data>)
    requires Drafts(s, requestId).Some?
    ensures
      var t := ChangeAnswer(s, requestId, questionId, answer);
      Drafts(t, requestId) == Some(if answer.Some? then Drafts(s, requestId).value[questionId := answer.value]
                                   else Drafts(s, requestId).value - {questionId})
  {
    var parts := s.active.value.parts;
    var i := FindOpen(parts, requestId);
    var old_ := AnswersOf(parts[i].request);
    FindOpenStays(parts, requestId, NonEmptyAnswers(if answer.Some? then old_[questionId := answer.value] else old_ - {questionId}));
  }

  /** An answer taken back leaves the drafts as they were before it was given. */
  lemma AnswerUndone(s: Chat, requestId: string, questionId: string, answer: Data)
    requires Drafts(s, requestId).Some? && questionId !in Drafts(s, requestId).value
    ensures Drafts(ChangeAnswer(ChangeAnswer(s, requestId, questionId, Some(answer)), requestId, questionId, None), requestId)
         == Drafts(s, requestId)
  {
    DraftChanges(s, requestId, questionId, Some(answer));
    DraftChanges(ChangeAnswer(s, requestId, questionId, Some(answer)), requestId, questionId, None);
    assert Drafts(s, requestId).value[questionId := answer] - {questionId} == Drafts(s, requestId).value;
  }

  /** Asking again without answers keeps the drafts given so far. */
  lemma AskingAgainKeepsDrafts(s: Chat, request: InputRequest)
    requires Drafts(s, request.id).Some? && request.answers.None?
    ensures Drafts(UpsertInputRequest(s, request), request.id) == Drafts(s, request.id)
  {
    var parts := s.active.value.parts;
    var i := FindOpen(parts, request.id);
    var after := UpsertParts(parts, request);
    assert after[i] == Input(request.(answers := parts[i].request.answers), None);
    assert forall j :: 0 <= j < i ==> after[j] == parts[j];
    FirstOpenAt(after, request.id, i);
  }

  lemma {:induction false} FirstOpenAt(parts: seq<Part>, requestId: string, i: nat)
    requires i < |parts| && IsOpenRequest(parts[i], requestId)
    requires forall j :: 0 <= j < i ==> !IsOpenRequest(parts[j], requestId)
    ensures FindOpen(parts, requestId) == i
  {
  }
}
