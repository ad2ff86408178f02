/** The status a chat shows is always the one its active turn calls for. */
module ChatStatus {
  import opened Collections
  import opened StatusBits
  import opened ChatSpec

  // ---------- blocking parts ----------

  lemma {:induction false} UpdateCallsAt(parts: seq<Part>, toolCallId: string, meta: Option<Data>, change: CallChange)
    ensures var r := UpdateCalls(parts, toolCallId, meta, change);
      forall i :: 0 <= i < |parts| ==> r[i] == UpdatePart(parts[i], toolCallId, meta, change)
    decreases |parts|
  {
    if |parts| > 0 { UpdateCallsAt(parts[..|parts| - 1], toolCallId, meta, change); }
  }

  lemma SameBlocking(a: seq<Part>, b: seq<Part>)
    requires |a| == |b| && forall i :: 0 <= i < |a| ==> Blocks(a[i]) == Blocks(b[i])
    ensures AnyBlocks(a) == AnyBlocks(b)
  {
    if AnyBlocks(a) {
      var i :| 0 <= i < |a| && Blocks(a[i]);
      assert Blocks(b[i]);
    }
    if AnyBlocks(b) {
      var i :| 0 <= i < |b| && Blocks(b[i]);
      assert Blocks(a[i]);
    }
  }

  lemma AppendBlocking(parts: seq<Part>, p: Part)
    ensures AnyBlocks(parts + [p]) == (AnyBlocks(parts) || Blocks(p))
  {
    if AnyBlocks(parts) {
      var i :| 0 <= i < |parts| && Blocks(parts[i]);
      assert Blocks((parts + [p])[i]);
    }
    if Blocks(p) { assert Blocks((parts + [p])[|parts|]); }
  }

  /** The changes that leave the status alone do not make a call block, or stop blocking. */
  lemma QuietUpdate(p: Part, toolCallId: string, meta: Option<Data>, change: CallChange)
    requires !Refreshes(change)
    ensures Blocks(UpdatePart(p, toolCallId, meta, change)) == Blocks(p)
  {
  }

  lemma QuietUpdates(parts: seq<Part>, toolCallId: string, meta: Option<Data>, change: CallChange)
    requires !Refreshes(change)
    ensures AnyBlocks(UpdateCalls(parts, toolCallId, meta, change)) == AnyBlocks(parts)
  {
    UpdateCallsAt(parts, toolCallId, meta, change);
    forall i | 0 <= i < |parts| ensures Blocks(UpdateCalls(parts, toolCallId, meta, change)[i]) == Blocks(parts[i]) {
      QuietUpdate(parts[i], toolCallId, meta, change);
    }
    SameBlocking(UpdateCalls(parts, toolCallId, meta, change), parts);
  }

  lemma ExtendQuiet(parts: seq<Part>, partId: string, reasoning: bool, content: string)
    ensures AnyBlocks(ExtendFirst(parts, partId, reasoning, content)) == AnyBlocks(parts)
  {
    SameBlocking(ExtendFirst(parts, partId, reasoning, content), parts);
  }

  // ---------- the invariant ----------

  /** The activity bits are the active turn's, or report an error when no turn is active. */
  predicate Derived(s: Chat) {
    Activity(s.status) == ActivityOf(s.active) || (s.active.None? && Activity(s.status) == ERROR)
  }

  /** Someone outside has to act: confirm a call or its result, authenticate, or answer. */
  predicate AwaitsSomeone(p: Part) {
    || (p.Call? && (p.call.PendingConfirmation? || p.call.PendingResult? || p.call.AuthRequired?))
    || (p.Input? && p.response.None?)
  }

  /** The status says whether there is a turn, and whether it waits for someone. */
  ghost predicate ShowsWork(s: Chat) {
    var waits := s.active.Some? && exists i :: 0 <= i < |s.active.value.parts| && AwaitsSomeone(s.active.value.parts[i]);
    && (Activity(s.status) == INPUT_NEEDED <==> waits)
    && (Activity(s.status) == IN_PROGRESS <==> s.active.Some? && !waits)
    && (Activity(s.status) == IDLE || Activity(s.status) == ERROR <==> s.active.None?)
  }

  lemma DerivedShowsWork(s: Chat)
    requires Derived(s)
    ensures ShowsWork(s)
  {
    ActivitiesDiffer();
    if s.active.Some? {
      var parts := s.active.value.parts;
      assert forall i :: 0 <= i < |parts| ==> Blocks(parts[i]) == AwaitsSomeone(parts[i]);
    }
  }

  /** The one action that can leave the status behind: it adds a part that blocks a turn that did not block,
      without recomputing the status. */
  predicate Strays(s: Chat, a: Action) {
    a.ResponsePart? && IsActive(s, a.turnId) && Blocks(a.part) && !AnyBlocks(s.active.value.parts)
  }

  /** The actions that mark the chat unread. */
  predicate NeedsAttention(s: Chat, a: Action) {
    a.TurnStarted? || (a.TurnResumes? && CanResume(s, a.turnId)) || (a.InputRequested? && s.active.Some?)
  }

  /** How a step touches the status: not at all, or by deriving it afresh. */
  datatype Touch = Keeps | Derives | DerivesUnread | Fails

  function TouchOf(s: Chat, a: Action): Touch {
    match a
    case TurnStarted(_, _, _, _) => DerivesUnread
    case TurnEnds(turnId, _, _) => if IsActive(s, turnId) then Derives else Keeps
    case TurnFails(turnId, _, _, _) => if IsActive(s, turnId) then Fails else Keeps
    case TurnResumes(turnId) => if CanResume(s, turnId) then DerivesUnread else Keeps
    case CallUpdate(_, _, _, change) => if Refreshes(change) then Derives else Keeps
    case Truncated(lastTurnId) =>
      if lastTurnId.Some? && IndexOfTurn(s.turns, lastTurnId.value) == |s.turns| then Keeps else Derives
    case InputRequested(_) => if s.active.Some? then DerivesUnread else Keeps
    case InputCompleted(requestId, _, _) =>
      if s.active.Some? && FindOpen(s.active.value.parts, requestId) < |s.active.value.parts| then Derives else Keeps
    case _ => Keeps
  }

  /** The status after a touch, given the active turn afterwards. */
  function Touched(status: bv32, touch: Touch, active: Option<ActiveTurn>): bv32 {
    match touch
    case Keeps => status
    case Derives => WithActivity(status, ActivityOf(active))
    case DerivesUnread => Unread(WithActivity(status, ActivityOf(active)))
    case Fails => WithActivity(status, ERROR)
  }

  /** A touch sets the activity it derives, clears the read bit if it marks unread, and leaves the rest. */
  lemma TouchedBits(status: bv32, touch: Touch, active: Option<ActiveTurn>)
    ensures IsArchived(Touched(status, touch, active)) == IsArchived(status)
    ensures IsRead(Touched(status, touch, active)) == (IsRead(status) && !touch.DerivesUnread?)
    ensures Activity(Touched(status, touch, active))
         == if touch.Keeps? then Activity(status) else if touch.Fails? then ERROR else ActivityOf(active)
  {
    match touch {
      case Keeps =>
      case Derives => WithActivityBits(status, ActivityOf(active));
      case DerivesUnread =>
        WithActivityBits(status, ActivityOf(active));
        UnreadBits(WithActivity(status, ActivityOf(active)));
      case Fails => WithActivityBits(status, ERROR);
    }
  }

  predicate MovesTurn(a: Action) {
    a.TurnStarted? || a.TurnEnds? || a.TurnFails? || a.TurnResumes? || a.Truncated?
  }

  predicate MovesPart(a: Action) {
    a.CallUpdate? || a.InputRequested? || a.InputCompleted?
  }

  lemma StatusAfter(s: Chat, a: Action)
    ensures Reduce(s, a).status == Touched(s.status, TouchOf(s, a), Reduce(s, a).active)
  {
    if MovesTurn(a) {
      StatusAfterTurn(s, a);
    } else if MovesPart(a) {
      StatusAfterPart(s, a);
    } else {
      StatusUntouched(s, a);
    }
  }

  lemma StatusAfterTurn(s: Chat, a: Action)
    requires MovesTurn(a)
    ensures Reduce(s, a).status == Touched(s.status, TouchOf(s, a), Reduce(s, a).active)
  {
    match a
    case TurnStarted(_, _, _, _) => StatusAfterStart(s, a);
    case TurnEnds(_, _, _) => StatusAfterEnd(s, a);
    case TurnFails(_, _, _, _) => StatusAfterEnd(s, a);
    case TurnResumes(_) => StatusAfterResume(s, a);
    case Truncated(_) => StatusAfterTruncation(s, a);
  }

  lemma StatusAfterStart(s: Chat, a: Action)
    requires a.TurnStarted?
    ensures Reduce(s, a).status == Touched(s.status, TouchOf(s, a), Reduce(s, a).active)
  {
  }

  lemma StatusAfterEnd(s: Chat, a: Action)
    requires a.TurnEnds? || a.TurnFails?
    ensures Reduce(s, a).status == Touched(s.status, TouchOf(s, a), Reduce(s, a).active)
  {
  }

  lemma StatusAfterResume(s: Chat, a: Action)
    requires a.TurnResumes?
    ensures Reduce(s, a).status == Touched(s.status, TouchOf(s, a), Reduce(s, a).active)
  {
  }

  lemma StatusAfterTruncation(s: Chat, a: Action)
    requires a.Truncated?
    ensures Reduce(s, a).status == Touched(s.status, TouchOf(s, a), Reduce(s, a).active)
  {
    TruncationTurn(s, a);
    var t := Truncate(s, a.lastTurnId);
    if TouchOf(s, a).Derives? {
      assert t.status == WithActivity(s.status, IDLE) && ActivityOf(t.active) == IDLE;
    }
  }

  lemma TruncationTurn(s: Chat, a: Action)
    requires a.Truncated?
    ensures Reduce(s, a) == Truncate(s, a.lastTurnId)
    ensures if TouchOf(s, a).Derives? then Truncate(s, a.lastTurnId).active.None? else TouchOf(s, a).Keeps? && Truncate(s, a.lastTurnId) == s
  {
  }

  lemma StatusAfterPart(s: Chat, a: Action)
    requires MovesPart(a)
    ensures Reduce(s, a).status == Touched(s.status, TouchOf(s, a), Reduce(s, a).active)
  {
  }

  lemma StatusUntouched(s: Chat, a: Action)
    requires !MovesTurn(a) && !MovesPart(a)
    ensures TouchOf(s, a).Keeps? && Reduce(s, a).status == s.status
  {
  }

  /** What the active turn's blocking is after a step that leaves the status alone. */
  lemma QuietStep(s: Chat, a: Action)
    requires TouchOf(s, a).Keeps? && !Strays(s, a)
    ensures ActivityOf(Reduce(s, a).active) == ActivityOf(s.active)
  {
    if s.active.Some? {
      var parts := s.active.value.parts;
      match a {
        case TextDelta(_, partId, content) => ExtendQuiet(parts, partId, false, content);
        case ReasoningDelta(_, partId, content) => ExtendQuiet(parts, partId, true, content);
        case ResponsePart(_, part) => AppendBlocking(parts, part);
        case CallStart(_, base) => AppendBlocking(parts, Call(Streaming(base, None, None)));
        case CallUpdate(_, toolCallId, meta, change) => QuietUpdates(parts, toolCallId, meta, change);
        case InputAnswerChanged(requestId, questionId, answer) => AnswerQuiet(s, requestId, questionId, answer);
        case _ =>
      }
    }
  }

  lemma AnswerQuiet(s: Chat, requestId: string, questionId: string, answer: Option<Data>)
    requires s.active.Some?
    ensures ActivityOf(ChangeAnswer(s, requestId, questionId, answer).active) == ActivityOf(s.active)
  {
    SameBlocking(s.active.value.parts, ChangeAnswer(s, requestId, questionId, answer).active.value.parts);
  }

  lemma StrayStep(s: Chat, a: Action)
    requires Strays(s, a)
    ensures TouchOf(s, a).Keeps? && ActivityOf(s.active) == IN_PROGRESS && ActivityOf(Reduce(s, a).active) == INPUT_NEEDED
  {
    AppendBlocking(s.active.value.parts, a.part);
  }

  /** Exactly when a step keeps the status derived: always, but for a blocking part added unannounced. */
  lemma StaysDerivedIff(s: Chat, a: Action)
    requires Derived(s)
    ensures Derived(Reduce(s, a)) <==> !Strays(s, a)
  {
    StatusAfter(s, a);
    TouchedBits(s.status, TouchOf(s, a), Reduce(s, a).active);
    ActivitiesDiffer();
    if Strays(s, a) {
      StrayStep(s, a);
    } else if TouchOf(s, a).Keeps? {
      QuietStep(s, a);
      NoTurnStays(s, a);
    } else if TouchOf(s, a).Fails? {
      FailureEndsTurn(s, a);
    }
  }

  /** A chat with nothing in it but its status and, perhaps, an active turn. */
  function Bare(status: bv32, active: Option<ActiveTurn>): Chat {
    Chat(status, [], active, None, 0, None, None, None, None, None)
  }

  /** Such a part, an open input request, and the status it leaves behind. */
  lemma StatusCanLag()
    ensures
      var s := Bare(IN_PROGRESS, Some(ActiveTurn("t", 0, Data(0), [], None)));
      var t := Reduce(s, ResponsePart("t", Input(InputRequest("q", None, Data(0)), None)));
      Derived(s) && Activity(t.status) == IN_PROGRESS && ActivityOf(t.active) == INPUT_NEEDED && !Derived(t)
  {
    var s := Bare(IN_PROGRESS, Some(ActiveTurn("t", 0, Data(0), [], None)));
    var part := Input(InputRequest("q", None, Data(0)), None);
    assert Strays(s, ResponsePart("t", part));
    AppendBlocking([], part);
    ActivitiesDiffer();
  }

  lemma FailureEndsTurn(s: Chat, a: Action)
    requires TouchOf(s, a).Fails?
    ensures Reduce(s, a).active.None?
  {
  }

  lemma NoTurnStays(s: Chat, a: Action)
    requires TouchOf(s, a).Keeps?
    ensures s.active.None? ==> Reduce(s, a).active.None?
  {
  }

  /** No action changes the archived bit, and the read bit is only ever cleared, by exactly the actions
      that need attention. */
  lemma FlagsAfter(s: Chat, a: Action)
    ensures IsArchived(Reduce(s, a).status) == IsArchived(s.status)
    ensures IsRead(Reduce(s, a).status) <==> IsRead(s.status) && !NeedsAttention(s, a)
  {
    StatusAfter(s, a);
    TouchedBits(s.status, TouchOf(s, a), Reduce(s, a).active);
  }

  /** No action of the run strays. */
  predicate NeverStrays(s: Chat, actions: seq<Action>)
    decreases |actions|
  {
    |actions| == 0 ||
    var n := |actions| - 1;
    NeverStrays(s, actions[..n]) && !Strays(Run(s, actions[..n]), actions[n])
  }

  /** The status over whole runs: derived at the end if no blocking part was added unannounced; the archived
      bit as it was; the read bit never set. */
  lemma {:induction false} StatusOverRuns(s: Chat, actions: seq<Action>)
    requires Derived(s)
    ensures NeverStrays(s, actions) ==> Derived(Run(s, actions)) && ShowsWork(Run(s, actions))
    ensures IsArchived(Run(s, actions).status) == IsArchived(s.status)
    ensures IsRead(Run(s, actions).status) ==> IsRead(s.status)
    decreases |actions|
  {
    if |actions| > 0 {
      var n := |actions| - 1;
      StatusOverRuns(s, actions[..n]);
      FlagsAfter(Run(s, actions[..n]), actions[n]);
      if NeverStrays(s, actions) { StaysDerivedIff(Run(s, actions[..n]), actions[n]); }
    }
    if NeverStrays(s, actions) { DerivedShowsWork(Run(s, actions)); }
  }

  /** A part of its own accord never makes the chat stray if it does not block. */
  lemma {:induction false} HarmlessPartsNeverStray(s: Chat, actions: seq<Action>)
    requires forall i :: 0 <= i < |actions| && actions[i].ResponsePart? ==> !Blocks(actions[i].part)
    ensures NeverStrays(s, actions)
    decreases |actions|
  {
    if |actions| > 0 { HarmlessPartsNeverStray(s, actions[..|actions| - 1]); }
  }
}
