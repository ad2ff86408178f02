/** An input request over a whole run: what is asked, what is answered, and how it is closed. */
module ChatInput {
  import opened Collections
  import opened ChatSpec
  import opened ChatStatus
  import opened ChatHistory

  /** The part is open under that id, and no part before it is. */
  predicate IsFirstOpen(parts: seq<Part>, i: nat, requestId: string) {
    i < |parts| && IsOpenRequest(parts[i], requestId) && forall j :: 0 <= j < i ==> !IsOpenRequest(parts[j], requestId)
  }

  /** The request an action is about. */
  function RequestNamed(a: Action): Option<string> {
    match a
    case InputRequested(request) => Some(request.id)
    case InputAnswerChanged(requestId, _, _) => Some(requestId)
    case InputCompleted(requestId, _, _) => Some(requestId)
    case _ => None
  }

  /** An action reaches the request at a place if it names it while it is the first open one of its name. */
  predicate Reaches(s: Chat, a: Action, w: Place) {
    w.InActive? && s.active.Some? && RequestNamed(a).Some? && IsFirstOpen(s.active.value.parts, w.i, RequestNamed(a).value)
  }

  /** The actions of a run that reach the request followed from a place. */
  function Reaching(s: Chat, actions: seq<Action>, w: Place): seq<Action> {
    if |actions| == 0 then []
    else
      var front, a := actions[..|actions| - 1], actions[|actions| - 1];
      Reaching(s, front, w) + (if Reaches(Run(s, front), a, FollowRun(s, front, w)) then [a] else [])
  }

  // ---------- what they make of it ----------

  /** What an action says about the answer to a question, if anything. */
  function Says(a: Action, question: string): Option<Option<Data>> {
    match a
    case InputRequested(request) => if request.answers.Some? then Some(Given(request.answers.value, question)) else None
    case InputAnswerChanged(_, questionId, answer) => if questionId == question then Some(answer) else None
    case InputCompleted(_, _, answers) =>
      if answers.Some? && question in answers.value then Some(Some(answers.value[question])) else None
    case _ => None
  }

  function Given(answers: Answers, question: string): Option<Data> {
    if question in answers then Some(answers[question]) else None
  }

  /** The answer last given, submitted or asked with; taken back, it is gone. */
  function LastSaid(before: Option<Data>, actions: seq<Action>, question: string): Option<Data> {
    if |actions| == 0 then before
    else
      var n := |actions| - 1;
      if Says(actions[n], question).Some? then Says(actions[n], question).value else LastSaid(before, actions[..n], question)
  }

  function LastResponse(before: Option<Data>, actions: seq<Action>): Option<Data> {
    if |actions| == 0 then before
    else
      var n := |actions| - 1;
      if actions[n].InputCompleted? then Some(actions[n].response) else LastResponse(before, actions[..n])
  }

  function LastAsked(before: Data, actions: seq<Action>): Data {
    if |actions| == 0 then before
    else
      var n := |actions| - 1;
      if actions[n].InputRequested? then actions[n].request.rest else LastAsked(before, actions[..n])
  }

  /** The answer a request shows for a question. */
  function AnswerTo(p: Part, question: string): Option<Data>
    requires p.Input?
  {
    if p.request.answers.Some? then Given(p.request.answers.value, question) else None
  }

  /** A request as some actions leave it, seen through one question. */
  predicate IsAfter(p: Part, actions: seq<Action>, question: string, q: Part) {
    && p.Input? && q.Input? && q.request.id == p.request.id
    && AnswerTo(q, question) == LastSaid(AnswerTo(p, question), actions, question)
    && q.response == LastResponse(p.response, actions)
    && q.request.rest == LastAsked(p.request.rest, actions)
    && (|actions| == 0 ==> q == p)
    && (|actions| > 0 && !actions[|actions| - 1].InputRequested? ==> q.request.answers != Some(map[]))
  }

  /** A request as one action that reaches it leaves it. */
  predicate IsNext(p: Part, a: Action, question: string, q: Part) {
    && p.Input? && q.Input? && q.request.id == p.request.id
    && AnswerTo(q, question) == (if Says(a, question).Some? then Says(a, question).value else AnswerTo(p, question))
    && q.response == (if a.InputCompleted? then Some(a.response) else p.response)
    && q.request.rest == (if a.InputRequested? then a.request.rest else p.request.rest)
    && (!a.InputRequested? ==> q.request.answers != Some(map[]))
  }

  // ---------- one step ----------

  lemma FirstOpenIsFound(parts: seq<Part>, i: nat, requestId: string)
    requires i < |parts|
    ensures IsFirstOpen(parts, i, requestId) <==> FindOpen(parts, requestId) == i
  {
  }

  lemma ReachedIsNext(s: Chat, a: Action, i: nat, question: string)
    requires Reaches(s, a, InActive(i))
    ensures
      var t := Reduce(s, a);
      && t.active.Some? && i < |t.active.value.parts|
      && IsNext(s.active.value.parts[i], a, question, t.active.value.parts[i])
  {
    var parts := s.active.value.parts;
    FirstOpenIsFound(parts, i, RequestNamed(a).value);
    match a
    case InputRequested(request) => assert UpsertParts(parts, request)[i] == Reduce(s, a).active.value.parts[i];
    case InputAnswerChanged(_, questionId, answer) => DraftNext(AnswersOf(parts[i].request), questionId, answer, question);
    case InputCompleted(_, _, answers) => SubmittedNext(AnswersOf(parts[i].request), answers, question);
  }

  lemma DraftNext(before: Answers, questionId: string, answer: Option<Data>, question: string)
    ensures
      var after := NonEmptyAnswers(if answer.Some? then before[questionId := answer.value] else before - {questionId});
      && (if after.Some? then Given(after.value, question) else None)
         == (if questionId == question then answer else Given(before, question))
      && after != Some(map[])
  {
    var after := if answer.Some? then before[questionId := answer.value] else before - {questionId};
    assert Given(after, question) == if questionId == question then answer else Given(before, question);
  }

  lemma SubmittedNext(before: Answers, answers: Option<Answers>, question: string)
    ensures
      var after := NonEmptyAnswers(before + (if answers.Some? then answers.value else map[]));
      && (if after.Some? then Given(after.value, question) else None)
         == (if answers.Some? && question in answers.value then Some(answers.value[question]) else Given(before, question))
      && after != Some(map[])
  {
    var after := before + (if answers.Some? then answers.value else map[]);
    assert Given(after, question)
        == if answers.Some? && question in answers.value then Some(answers.value[question]) else Given(before, question);
  }

  lemma UnreachedStays(s: Chat, a: Action, i: nat)
    requires s.active.Some? && i < |s.active.value.parts| && s.active.value.parts[i].Input?
    requires RequestNamed(a).Some? && !Reaches(s, a, InActive(i))
    ensures
      var t := Reduce(s, a);
      t.active.Some? && i < |t.active.value.parts| && t.active.value.parts[i] == s.active.value.parts[i]
  {
    FirstOpenIsFound(s.active.value.parts, i, RequestNamed(a).value);
  }

  lemma OthersKeepRequests(s: Chat, a: Action, i: nat)
    requires s.active.Some? && i < |s.active.value.parts| && s.active.value.parts[i].Input?
    requires !MovesTurn(a) && RequestNamed(a).None?
    ensures
      var t := Reduce(s, a);
      t.active.Some? && i < |t.active.value.parts| && t.active.value.parts[i] == s.active.value.parts[i]
  {
    if a.CallUpdate? {
      if IsActive(s, a.turnId) { UpdateReaches(s, a, i); } else { assert Reduce(s, a).active == s.active; }
    } else if a.TextDelta? || a.ReasoningDelta? {
      DeltaKeepsRequests(s, a, i);
    } else if a.ResponsePart? || a.CallStart? || a.Usage? {
      assert |Reduce(s, a).active.value.parts| >= |s.active.value.parts|;
    } else {
      ActiveUntouched(s, a);
    }
  }

  lemma DeltaKeepsRequests(s: Chat, a: Action, i: nat)
    requires s.active.Some? && i < |s.active.value.parts| && s.active.value.parts[i].Input? && (a.TextDelta? || a.ReasoningDelta?)
    ensures
      var t := Reduce(s, a);
      t.active.Some? && i < |t.active.value.parts| && t.active.value.parts[i] == s.active.value.parts[i]
  {
  }

  /** A request that an action does not reach is carried along unchanged. */
  lemma RequestFollows(s: Chat, a: Action, w: Place, p: Part)
    requires PartAt(s, w) == Some(p) && p.Input? && !Follow(s, a, w).Gone? && !Reaches(s, a, w)
    ensures PartAt(Reduce(s, a), Follow(s, a, w)) == Some(p)
  {
    match w {
      case InActive(i) =>
        if RequestNamed(a).Some? {
          UnreachedStays(s, a, i);
        } else if Follow(s, a, w) != w {
          EntersHistory(s, a, i);
        } else if MovesTurn(a) {
          TurnUntouched(s, a, i);
        } else {
          OthersKeepRequests(s, a, i);
        }
      case InTurn(j, i) => HistoryFollows(s, a, j, i);
    }
  }

  // ---------- whole runs ----------

  lemma AfterNext(p: Part, actions: seq<Action>, a: Action, question: string, q: Part, r: Part)
    requires IsAfter(p, actions, question, q) && IsNext(q, a, question, r)
    ensures IsAfter(p, actions + [a], question, r)
  {
    assert (actions + [a])[..|actions|] == actions;
  }

  /** Over any run a request shows, for every question, the answer last given, with answers submitted at the end
      before those drafted, and the response it was completed with; only actions that name it while it is the first
      open one of its name change it, so a completed request never changes again. */
  lemma {:induction false} RequestOverRuns(s: Chat, actions: seq<Action>, w: Place, p: Part, question: string)
    requires PartAt(s, w) == Some(p) && p.Input? && !FollowRun(s, actions, w).Gone?
    ensures
      var q := PartAt(Run(s, actions), FollowRun(s, actions, w));
      q.Some? && IsAfter(p, Reaching(s, actions, w), question, q.value)
    decreases |actions|
  {
    if |actions| > 0 {
      var front, a := actions[..|actions| - 1], actions[|actions| - 1];
      RequestOverRuns(s, front, w, p, question);
      RequestNext(Run(s, front), a, FollowRun(s, front, w), p, Reaching(s, front, w), question);
    }
  }

  lemma RequestNext(s: Chat, a: Action, w: Place, p: Part, reaching: seq<Action>, question: string)
    requires PartAt(s, w).Some? && IsAfter(p, reaching, question, PartAt(s, w).value) && !Follow(s, a, w).Gone?
    ensures
      var q := PartAt(Reduce(s, a), Follow(s, a, w));
      q.Some? && IsAfter(p, reaching + (if Reaches(s, a, w) then [a] else []), question, q.value)
  {
    if Reaches(s, a, w) {
      ReachedIsNext(s, a, w.i, question);
      AfterNext(p, reaching, a, question, PartAt(s, w).value, PartAt(Reduce(s, a), Follow(s, a, w)).value);
    } else {
      RequestFollows(s, a, w, PartAt(s, w).value);
      assert reaching + [] == reaching;
    }
  }

  /** Nothing reaches a completed request. */
  lemma {:induction false} CompletedIsFinal(s: Chat, actions: seq<Action>, w: Place, p: Part)
    requires PartAt(s, w) == Some(p) && p.Input? && p.response.Some? && !FollowRun(s, actions, w).Gone?
    ensures Reaching(s, actions, w) == [] && PartAt(Run(s, actions), FollowRun(s, actions, w)) == Some(p)
    decreases |actions|
  {
    if |actions| > 0 {
      var front := actions[..|actions| - 1];
      CompletedIsFinal(s, front, w, p);
      RequestFollows(Run(s, front), actions[|actions| - 1], FollowRun(s, front, w), p);
    }
  }

  /** Completing the first open request of a name closes it with that response, over its drafts the answers
      submitted, and leaves every other part alone. */
  lemma CompletionIsRecorded(s: Chat, a: Action, i: nat, question: string)
    requires a.InputCompleted? && Reaches(s, a, InActive(i))
    ensures
      var before, after := s.active.value.parts, Reduce(s, a).active.value.parts;
      && |after| == |before| && (forall k :: 0 <= k < |before| && k != i ==> after[k] == before[k])
      && after[i].Input? && after[i].response == Some(a.response)
      && AnswerTo(after[i], question)
         == (if a.answers.Some? && question in a.answers.value then Some(a.answers.value[question]) else AnswerTo(before[i], question))
  {
    ReachedIsNext(s, a, i, question);
    FirstOpenIsFound(s.active.value.parts, i, a.requestId);
  }
}
