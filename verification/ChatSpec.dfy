/** The chat reducer: turns, the tool-call state machine, the derived status, input requests and the queue. */
module ChatSpec {
  import opened Collections
  import opened StatusBits

  /** A JSON value whose inside does not matter here. */
  datatype Data = Data(token: int)

  // ---------- tool calls ----------

  datatype Contributor = Client(clientId: string) | Mcp(customizationId: string)

  /** What every stage of a call carries; `names` stands for the tool's names. */
  datatype Base = Base(id: string, names: Data, intention: Option<string>, contributor: Option<Contributor>, meta: Option<Data>)

  datatype ToolInput = Inline(text: string) | Referenced(ref: Data)

  datatype ConfirmOption = ConfirmOption(id: string, rest: Data)

  datatype Prompt = Prompt(
    title: Option<Data>, risk: Option<Data>, edits: Option<Data>, editable: Option<bool>, options: Option<seq<ConfirmOption>>)

  datatype Result = Result(success: bool, content: Option<Data>, rest: Data)

  datatype Confirmed = NotNeeded | UserAction | Setting

  datatype Reason = Denied | Skipped | ResultDenied

  datatype ToolCall =
    | Streaming(base: Base, partialInput: Option<string>, progress: Option<string>)
    | PendingConfirmation(base: Base, invocation: string, toolInput: Option<ToolInput>, prompt: Prompt)
    | Running(base: Base, invocation: string, toolInput: Option<ToolInput>, confirmed: Confirmed,
              selected: Option<ConfirmOption>, content: Option<Data>)
    | AuthRequired(base: Base, invocation: string, toolInput: Option<ToolInput>, confirmed: Confirmed,
                   selected: Option<ConfirmOption>, content: Option<Data>, auth: Data)
    | PendingResult(base: Base, invocation: string, toolInput: Option<ToolInput>, confirmed: Confirmed,
                    selected: Option<ConfirmOption>, result: Result)
    | Completed(base: Base, invocation: string, toolInput: Option<ToolInput>, confirmed: Confirmed,
                selected: Option<ConfirmOption>, result: Result)
    | Cancelled(base: Base, invocation: string, toolInput: Option<ToolInput>, reason: Reason,
                feedback: Option<Data>, selected: Option<ConfirmOption>)

  datatype CallChange =
    | CallDelta(content: Option<string>, progress: Option<string>)
    | CallReady(contributor: Option<Contributor>, intention: Option<string>, invocation: string,
                toolInput: Option<ToolInput>, confirmed: Option<Confirmed>, prompt: Prompt)
    | CallApproved(editedToolInput: Option<string>, how: Confirmed, selectedOptionId: Option<string>)
    | CallDenied(reason: Reason, feedback: Option<Data>, selectedOptionId: Option<string>)
    | CallComplete(result: Result, requiresResultConfirmation: bool)
    | CallResultConfirmed(approved: bool)
    | CallContentChanged(partial: Data)
    | CallAuthRequired(auth: Data)
    | CallAuthResolved

  /** The second value, unless it is missing. */
  function Or<T>(value: Option<T>, otherwise: Option<T>): Option<T> {
    if value.Some? then value else otherwise
  }

  function WithMeta(base: Base, meta: Option<Data>): Base {
    base.(meta := Or(meta, base.meta))
  }

  /** A client that owns a call keeps it; nobody becomes its owner later. */
  function RefineContributor(current: Option<Contributor>, next: Option<Contributor>): Option<Contributor> {
    if next.None? then current
    else if current.Some? && current.value.Client? then
      if next.value.Client? && next.value.clientId == current.value.clientId then next else current
    else if next.value.Client? then current
    else next
  }

  function ResolveSelectedOption(options: Option<seq<ConfirmOption>>, id: Option<string>): Option<ConfirmOption> {
    if id.None? || id.value == "" || options.None? then None else FindOption(options.value, id.value)
  }

  function FindOption(options: seq<ConfirmOption>, id: string): Option<ConfirmOption> {
    if |options| == 0 then None else if options[0].id == id then Some(options[0]) else FindOption(options[1..], id)
  }

  function MergePrompt(next: Prompt, pending: Prompt): Prompt {
    Prompt(Or(next.title, pending.title), Or(next.risk, pending.risk), Or(next.edits, pending.edits),
           Or(next.editable, pending.editable), Or(next.options, pending.options))
  }

  function Ready(tc: ToolCall, meta: Option<Data>, change: CallChange): ToolCall
    requires change.CallReady?
  {
    if !(tc.Streaming? || tc.Running? || tc.PendingConfirmation?) then tc
    else
      var base := WithMeta(tc.base, meta).(
        contributor := RefineContributor(tc.base.contributor, change.contributor),
        intention := Or(change.intention, tc.base.intention));
      var toolInput := Or(change.toolInput, if tc.Streaming? then None else tc.toolInput);
      if change.confirmed.Some? then Running(base, change.invocation, toolInput, change.confirmed.value, None, None)
      else
        PendingConfirmation(base, change.invocation, toolInput,
                            if tc.PendingConfirmation? then MergePrompt(change.prompt, tc.prompt) else change.prompt)
  }

  function Complete(tc: ToolCall, meta: Option<Data>, result: Result, requiresResultConfirmation: bool): ToolCall {
    if !(tc.Running? || tc.PendingConfirmation? || tc.AuthRequired?) || (tc.AuthRequired? && result.success) then tc
    else
      var base := WithMeta(tc.base, meta);
      var confirmed := if tc.PendingConfirmation? then NotNeeded else tc.confirmed;
      var selected := if tc.PendingConfirmation? then None else tc.selected;
      var kept := result.(content := Or(result.content, if tc.AuthRequired? then tc.content else None));
      if requiresResultConfirmation && !tc.AuthRequired? then
        PendingResult(base, tc.invocation, tc.toolInput, confirmed, selected, kept)
      else Completed(base, tc.invocation, tc.toolInput, confirmed, selected, kept)
  }

  /** One step of a call's life. An action that does not fit the call's stage leaves it alone. */
  function UpdateCall(tc: ToolCall, meta: Option<Data>, change: CallChange): ToolCall {
    match change
    case CallDelta(content, progress) =>
      if tc.Streaming? then
        Streaming(WithMeta(tc.base, meta),
                  if content.Some? then Some((if tc.partialInput.Some? then tc.partialInput.value else "") + content.value) else tc.partialInput,
                  Or(progress, tc.progress))
      else tc
    case CallReady(_, _, _, _, _, _) => Ready(tc, meta, change)
    case CallApproved(editedToolInput, how, selectedOptionId) =>
      if tc.PendingConfirmation? then
        var toolInput :=
          if editedToolInput.Some? && tc.toolInput.Some? && tc.toolInput.value.Inline? then Some(Inline(editedToolInput.value)) else tc.toolInput;
        Running(WithMeta(tc.base, meta), tc.invocation, toolInput, how, ResolveSelectedOption(tc.prompt.options, selectedOptionId), None)
      else tc
    case CallDenied(reason, feedback, selectedOptionId) =>
      if tc.PendingConfirmation? then
        Cancelled(WithMeta(tc.base, meta), tc.invocation, tc.toolInput, reason, feedback,
                  ResolveSelectedOption(tc.prompt.options, selectedOptionId))
      else tc
    case CallComplete(result, requiresResultConfirmation) => Complete(tc, meta, result, requiresResultConfirmation)
    case CallResultConfirmed(approved) =>
      if tc.PendingResult? then
        if approved then Completed(WithMeta(tc.base, meta), tc.invocation, tc.toolInput, tc.confirmed, tc.selected, tc.result)
        else Cancelled(WithMeta(tc.base, meta), tc.invocation, tc.toolInput, ResultDenied, None, tc.selected)
      else tc
    case CallContentChanged(partial) =>
      if tc.Running? then
        Running(WithMeta(tc.base, meta), tc.invocation, tc.toolInput, tc.confirmed, tc.selected, Some(partial))
      else tc
    case CallAuthRequired(auth) =>
      if tc.Running? && tc.base.contributor.Some? && tc.base.contributor.value.Mcp? then
        AuthRequired(WithMeta(tc.base, meta), tc.invocation, tc.toolInput, tc.confirmed, tc.selected, tc.content, auth)
      else tc
    case CallAuthResolved =>
      if tc.AuthRequired? then
        Running(WithMeta(tc.base, meta), tc.invocation, tc.toolInput, tc.confirmed, tc.selected, tc.content)
      else tc
  }

  /** Which changes recompute the status afterwards. */
  predicate Refreshes(change: CallChange) {
    !change.CallDelta? && !change.CallContentChanged?
  }

  predicate Settled(tc: ToolCall) {
    tc.Completed? || tc.Cancelled?
  }

  /** What the end of the turn makes of a call that is not over. */
  function Settle(tc: ToolCall): ToolCall {
    if Settled(tc) then tc
    else
      Cancelled(tc.base, if tc.Streaming? then (if tc.progress.Some? then tc.progress.value else "") else tc.invocation,
                if tc.Streaming? then None else tc.toolInput, Skipped, None, None)
  }

  // ---------- parts and turns ----------

  type Answers = map<string, Data>

  datatype InputRequest = InputRequest(id: string, answers: Option<Answers>, rest: Data)

  datatype Part =
    | Markdown(id: string, content: string)
    | Reasoning(id: string, content: string)
    | Call(call: ToolCall)
    | Input(request: InputRequest, response: Option<Data>)
    | Failure(error: Data, resumable: bool)
    | OtherPart(data: Data)

  datatype TurnState = TurnComplete | TurnCancelled | TurnError

  /** Times are in milliseconds. */
  datatype Turn = Turn(
    id: string, startedAt: Option<int>, duration: Option<int>, message: Data, parts: seq<Part>, usage: Option<Data>, state: TurnState)

  datatype ActiveTurn = ActiveTurn(id: string, startedAt: int, message: Data, parts: seq<Part>, usage: Option<Data>)

  datatype Pending = Pending(id: string, message: Data)

  datatype Chat = Chat(
    status: bv32, turns: seq<Turn>, active: Option<ActiveTurn>, turnsNextCursor: Option<string>, modifiedAt: int,
    activity: Option<string>, workingDirectories: Option<seq<string>>, steering: Option<Pending>,
    queued: Option<seq<Pending>>, draft: Option<Data>)

  datatype PendingKind = Steering | Queued

  datatype Action =
    | TurnStarted(turnId: string, startedAt: int, message: Data, queuedMessageId: Option<string>)
    | TextDelta(turnId: string, partId: string, content: string)
    | ResponsePart(turnId: string, part: Part)
    | TurnEnds(turnId: string, duration: int, cancelled: bool)
    | TurnFails(turnId: string, duration: int, error: Data, resumable: bool)
    | TurnResumes(turnId: string)
    | ActivityChanged(activity: Option<string>)
    | WorkingDirectorySet(directory: string)
    | WorkingDirectoryRemoved(directory: string)
    | CallStart(turnId: string, base: Base)
    | CallUpdate(turnId: string, toolCallId: string, meta: Option<Data>, change: CallChange)
    | Usage(turnId: string, usage: Data)
    | ReasoningDelta(turnId: string, partId: string, content: string)
    | Truncated(lastTurnId: Option<string>)
    | TurnsLoaded(turns: seq<Turn>, turnsNextCursor: Option<string>)
    | InputRequested(request: InputRequest)
    | InputAnswerChanged(requestId: string, questionId: string, answer: Option<Data>)
    | InputCompleted(requestId: string, response: Data, answers: Option<Answers>)
    | PendingMessageSet(kind: PendingKind, id: string, message: Data)
    | PendingMessageRemoved(kind: PendingKind, id: string)
    | QueuedMessagesReordered(order: seq<string>)
    | DraftChanged(draft: Option<Data>)
    | OtherAction

  // ---------- status ----------

  predicate Blocks(p: Part) {
    match p
    case Call(call) => call.PendingConfirmation? || call.PendingResult? || call.AuthRequired?
    case Input(_, response) => response.None?
    case _ => false
  }

  predicate AnyBlocks(parts: seq<Part>) {
    exists i :: 0 <= i < |parts| && Blocks(parts[i])
  }

  /** The activity the active turn shows. */
  function ActivityOf(active: Option<ActiveTurn>): bv32 {
    if active.None? then IDLE else if AnyBlocks(active.value.parts) then INPUT_NEEDED else IN_PROGRESS
  }

  function SummaryStatus(s: Chat): bv32 {
    WithActivity(s.status, ActivityOf(s.active))
  }

  function RefreshSummaryStatus(s: Chat): Chat {
    s.(status := SummaryStatus(s))
  }

  // ---------- working on the active turn ----------

  predicate IsActive(s: Chat, turnId: string) {
    s.active.Some? && s.active.value.id == turnId
  }

  function WithParts(s: Chat, parts: seq<Part>): Chat
    requires s.active.Some?
  {
    s.(active := Some(s.active.value.(parts := parts)))
  }

  function UpdatePart(p: Part, toolCallId: string, meta: Option<Data>, change: CallChange): Part {
    if p.Call? && p.call.base.id == toolCallId then Call(UpdateCall(p.call, meta, change)) else p
  }

  /** Every call of that id is updated. */
  function UpdateCalls(parts: seq<Part>, toolCallId: string, meta: Option<Data>, change: CallChange): (r: seq<Part>)
    ensures |r| == |parts|
  {
    if |parts| == 0 then []
    else UpdateCalls(parts[..|parts| - 1], toolCallId, meta, change) + [UpdatePart(parts[|parts| - 1], toolCallId, meta, change)]
  }

  function UpdateToolCallInParts(s: Chat, turnId: string, toolCallId: string, meta: Option<Data>, change: CallChange): Chat {
    if !IsActive(s, turnId) then s else WithParts(s, UpdateCalls(s.active.value.parts, toolCallId, meta, change))
  }

  function PartId(p: Part): Option<string> {
    match p
    case Markdown(id, _) => Some(id) case Reasoning(id, _) => Some(id) case Call(call) => Some(call.base.id) case _ => None
  }

  /** A delta reaches a part of its own sort only. */
  function Extend(p: Part, reasoning: bool, content: string): Part {
    if p.Markdown? && !reasoning then Markdown(p.id, p.content + content)
    else if p.Reasoning? && reasoning then Reasoning(p.id, p.content + content)
    else p
  }

  /** The first part of that id, of whatever sort, or the number of parts. */
  function IndexOfPart(parts: seq<Part>, partId: string): (i: nat)
    ensures i <= |parts| && (i < |parts| ==> PartId(parts[i]) == Some(partId))
    ensures forall j :: 0 <= j < i ==> PartId(parts[j]) != Some(partId)
  {
    if |parts| == 0 || PartId(parts[0]) == Some(partId) then 0 else 1 + IndexOfPart(parts[1..], partId)
  }

  /** That part alone is offered the delta. */
  function ExtendFirst(parts: seq<Part>, partId: string, reasoning: bool, content: string): seq<Part> {
    var i := IndexOfPart(parts, partId);
    if i == |parts| then parts else parts[i := Extend(parts[i], reasoning, content)]
  }

  function UpdateResponsePart(s: Chat, turnId: string, partId: string, reasoning: bool, content: string): Chat {
    if !IsActive(s, turnId) then s else WithParts(s, ExtendFirst(s.active.value.parts, partId, reasoning, content))
  }

  // ---------- turns ----------

  function SettlePart(p: Part): Part {
    if p.Call? then Call(Settle(p.call)) else p
  }

  function SettleParts(parts: seq<Part>): (r: seq<Part>)
    ensures |r| == |parts|
  {
    if |parts| == 0 then [] else SettleParts(parts[..|parts| - 1]) + [SettlePart(parts[|parts| - 1])]
  }

  /** The record of a turn that ends: its calls settled, a failure noted last. */
  function EndedTurn(active: ActiveTurn, state: TurnState, duration: int, failure: seq<Part>): Turn {
    Turn(active.id, Some(active.startedAt), Some(if duration < 0 then 0 else duration), active.message,
         SettleParts(active.parts) + failure, active.usage, state)
  }

  function EndTurn(s: Chat, turnId: string, state: TurnState, duration: int, failure: seq<Part>): Chat {
    if !IsActive(s, turnId) then s
    else
      var turn := EndedTurn(s.active.value, state, duration, failure);
      s.(turns := s.turns + [turn], active := None, modifiedAt := s.active.value.startedAt + turn.duration.value,
         status := WithActivity(s.status, if state.TurnError? then ERROR else IDLE))
  }

  predicate CanResume(s: Chat, turnId: string) {
    && s.active.None? && |s.turns| > 0
    && var turn := s.turns[|s.turns| - 1];
       turn.id == turnId && turn.state.TurnError? && |turn.parts| > 0
       && turn.parts[|turn.parts| - 1].Failure? && turn.parts[|turn.parts| - 1].resumable
  }

  function Resume(s: Chat, turnId: string): Chat {
    if !CanResume(s, turnId) then s
    else
      var turn := s.turns[|s.turns| - 1];
      var active := Some(ActiveTurn(turn.id, if turn.startedAt.Some? then turn.startedAt.value else s.modifiedAt, turn.message, turn.parts, turn.usage));
      s.(turns := s.turns[..|s.turns| - 1], active := active, status := Unread(WithActivity(s.status, ActivityOf(active))))
  }

  function StartTurn(s: Chat, turnId: string, startedAt: int, message: Data, queuedMessageId: Option<string>): Chat {
    var active := Some(ActiveTurn(turnId, startedAt, message, [], None));
    var started := s.(active := active, status := Unread(WithActivity(s.status, ActivityOf(active))), modifiedAt := startedAt);
    if queuedMessageId.None? || queuedMessageId.value == "" then started
    else
      started.(
        steering := if s.steering.Some? && s.steering.value.id == queuedMessageId.value then None else s.steering,
        queued := if s.queued.None? then None else NonEmpty(WithoutId(s.queued.value, queuedMessageId.value)))
  }

  function IndexOfTurn(turns: seq<Turn>, id: string): (i: nat)
    ensures i <= |turns|
  {
    if |turns| == 0 || turns[0].id == id then 0 else 1 + IndexOfTurn(turns[1..], id)
  }

  function Truncate(s: Chat, turnId: Option<string>): Chat {
    if turnId.None? then
      s.(turns := [], active := None, turnsNextCursor := None, status := WithActivity(s.status, IDLE))
    else
      var i := IndexOfTurn(s.turns, turnId.value);
      if i == |s.turns| then s else s.(turns := s.turns[..i + 1], active := None, status := WithActivity(s.status, IDLE))
  }

  /** The loaded turns that are not in the chat yet. */
  function Older(loaded: seq<Turn>, turns: seq<Turn>): (r: seq<Turn>)
    ensures forall t :: t in r ==> t in loaded
  {
    if |loaded| == 0 then []
    else (if IndexOfTurn(turns, loaded[0].id) == |turns| then [loaded[0]] else []) + Older(loaded[1..], turns)
  }

  // ---------- input requests ----------

  predicate IsOpenRequest(p: Part, requestId: string) {
    p.Input? && p.response.None? && p.request.id == requestId
  }

  /** The first open request of that id, or the number of parts. */
  function FindOpen(parts: seq<Part>, requestId: string): (i: nat)
    ensures i <= |parts| && (i < |parts| ==> IsOpenRequest(parts[i], requestId))
    ensures forall j :: 0 <= j < i ==> !IsOpenRequest(parts[j], requestId)
  {
    if |parts| == 0 || IsOpenRequest(parts[0], requestId) then 0 else 1 + FindOpen(parts[1..], requestId)
  }

  function NonEmptyAnswers(answers: Answers): Option<Answers> {
    if answers == map[] then None else Some(answers)
  }

  function AnswersOf(request: InputRequest): Answers {
    if request.answers.Some? then request.answers.value else map[]
  }

  /** A request is added, or takes the place of the open one of its id and keeps its drafts. */
  function UpsertParts(parts: seq<Part>, request: InputRequest): seq<Part> {
    var i := FindOpen(parts, request.id);
    if i == |parts| then parts + [Input(request, None)]
    else parts[i := Input(request.(answers := Or(request.answers, parts[i].request.answers)), None)]
  }

  function UpsertInputRequest(s: Chat, request: InputRequest): Chat {
    if s.active.None? then s
    else
      var next := WithParts(s, UpsertParts(s.active.value.parts, request));
      next.(status := Unread(SummaryStatus(next)))
  }

  function ChangeAnswer(s: Chat, requestId: string, questionId: string, answer: Option<Data>): Chat {
    if s.active.None? then s
    else
      var parts := s.active.value.parts;
      var i := FindOpen(parts, requestId);
      if i == |parts| then s
      else
        var old_ := AnswersOf(parts[i].request);
        var answers := if answer.Some? then old_[questionId := answer.value] else old_ - {questionId};
        WithParts(s, parts[i := Input(parts[i].request.(answers := NonEmptyAnswers(answers)), None)])
  }

  function CompleteInput(s: Chat, requestId: string, response: Data, answers: Option<Answers>): Chat {
    if s.active.None? then s
    else
      var parts := s.active.value.parts;
      var i := FindOpen(parts, requestId);
      if i == |parts| then s
      else
        var final := AnswersOf(parts[i].request) + (if answers.Some? then answers.value else map[]);
        RefreshSummaryStatus(WithParts(s, parts[i := Input(parts[i].request.(answers := NonEmptyAnswers(final)), Some(response))]))
  }

  // ---------- pending messages ----------

  function WithoutId(messages: seq<Pending>, id: string): (r: seq<Pending>)
    ensures |r| <= |messages|
  {
    if |messages| == 0 then []
    else (if messages[0].id == id then [] else [messages[0]]) + WithoutId(messages[1..], id)
  }

  function NonEmpty(messages: seq<Pending>): Option<seq<Pending>> {
    if |messages| == 0 then None else Some(messages)
  }

  function IndexOf(messages: seq<Pending>, id: string): (i: nat)
    ensures i <= |messages| && (i < |messages| ==> messages[i].id == id)
    ensures forall j :: 0 <= j < i ==> messages[j].id != id
  {
    if |messages| == 0 || messages[0].id == id then 0 else 1 + IndexOf(messages[1..], id)
  }

  function SetPending(s: Chat, kind: PendingKind, id: string, message: Data): Chat {
    if kind.Steering? then s.(steering := Some(Pending(id, message)))
    else
      var existing := if s.queued.Some? then s.queued.value else [];
      var i := IndexOf(existing, id);
      s.(queued := Some(if i < |existing| then existing[i := Pending(id, message)] else existing + [Pending(id, message)]))
  }

  function RemovePending(s: Chat, kind: PendingKind, id: string): Chat {
    if kind.Steering? then
      if s.steering.Some? && s.steering.value.id == id then s.(steering := None) else s
    else if s.queued.None? then s
    else
      var filtered := WithoutId(s.queued.value, id);
      if |filtered| == |s.queued.value| then s else s.(queued := NonEmpty(filtered))
  }

  /** The last message of that id, as a map built from the list would give it. */
  function Lookup(messages: seq<Pending>, id: string): Option<Pending> {
    if |messages| == 0 then None
    else if messages[|messages| - 1].id == id then Some(messages[|messages| - 1])
    else Lookup(messages[..|messages| - 1], id)
  }

  /** The queued messages the order names, each at its first mention. */
  function Mentioned(existing: seq<Pending>, order: seq<string>): seq<Pending> {
    if |order| == 0 then []
    else
      var n := |order| - 1;
      var found := Lookup(existing, order[n]);
      Mentioned(existing, order[..n]) + (if found.Some? && order[n] !in order[..n] then [found.value] else [])
  }

  function Unmentioned(existing: seq<Pending>, order: seq<string>): seq<Pending> {
    if |existing| == 0 then []
    else
      var n := |existing| - 1;
      Unmentioned(existing[..n], order) + (if existing[n].id in order then [] else [existing[n]])
  }

  function Reordered(existing: seq<Pending>, order: seq<string>): seq<Pending> {
    Mentioned(existing, order) + Unmentioned(existing, order)
  }

  // ---------- working directories ----------

  function SetDirectory(s: Chat, directory: string): Chat {
    var list := if s.workingDirectories.Some? then s.workingDirectories.value else [];
    if directory in list then s else s.(workingDirectories := Some(list + [directory]))
  }

  function RemoveDirectory(s: Chat, directory: string): Chat {
    if s.workingDirectories.None? then s
    else s.(workingDirectories := Some(Without(s.workingDirectories.value, directory)))
  }

  // ---------- the reducer ----------

  function Reduce(s: Chat, a: Action): Chat {
    match a
    case TurnStarted(turnId, startedAt, message, queuedMessageId) => StartTurn(s, turnId, startedAt, message, queuedMessageId)
    case TextDelta(turnId, partId, content) => UpdateResponsePart(s, turnId, partId, false, content)
    case ResponsePart(turnId, part) =>
      if !IsActive(s, turnId) || part.Failure? then s else WithParts(s, s.active.value.parts + [part])
    case TurnEnds(turnId, duration, cancelled) =>
      EndTurn(s, turnId, if cancelled then TurnCancelled else TurnComplete, duration, [])
    case TurnFails(turnId, duration, error, resumable) => EndTurn(s, turnId, TurnError, duration, [Failure(error, resumable)])
    case TurnResumes(turnId) => Resume(s, turnId)
    case ActivityChanged(activity) => s.(activity := activity)
    case WorkingDirectorySet(directory) => SetDirectory(s, directory)
    case WorkingDirectoryRemoved(directory) => RemoveDirectory(s, directory)
    case CallStart(turnId, base) =>
      if !IsActive(s, turnId) then s else WithParts(s, s.active.value.parts + [Call(Streaming(base, None, None))])
    case CallUpdate(turnId, toolCallId, meta, change) =>
      var updated := UpdateToolCallInParts(s, turnId, toolCallId, meta, change);
      if Refreshes(change) then RefreshSummaryStatus(updated) else updated
    case Usage(turnId, usage) => if !IsActive(s, turnId) then s else s.(active := Some(s.active.value.(usage := Some(usage))))
    case ReasoningDelta(turnId, partId, content) => UpdateResponsePart(s, turnId, partId, true, content)
    case Truncated(lastTurnId) => Truncate(s, lastTurnId)
    case TurnsLoaded(turns, cursor) => s.(turns := Older(turns, s.turns) + s.turns, turnsNextCursor := cursor)
    case InputRequested(request) => UpsertInputRequest(s, request)
    case InputAnswerChanged(requestId, questionId, answer) => ChangeAnswer(s, requestId, questionId, answer)
    case InputCompleted(requestId, response, answers) => CompleteInput(s, requestId, response, answers)
    case PendingMessageSet(kind, id, message) => SetPending(s, kind, id, message)
    case PendingMessageRemoved(kind, id) => RemovePending(s, kind, id)
    case QueuedMessagesReordered(order) =>
      if s.queued.None? then s else s.(queued := Some(Reordered(s.queued.value, order)))
    case DraftChanged(draft) => s.(draft := draft)
    case OtherAction => s
  }

  function Run(s: Chat, actions: seq<Action>): Chat {
    if |actions| == 0 then s else Reduce(Run(s, actions[..|actions| - 1]), actions[|actions| - 1])
  }
}
