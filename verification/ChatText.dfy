/** The text of a message part over a whole run: what was streamed to it, in order, and nothing else. */
module ChatText {
  import opened Collections
  import opened ChatSpec
  import opened ChatStatus
  import opened ChatHistory

  /** Neither a tool call nor an input request: text, a failure, or some other part. */
  predicate IsPlain(p: Part) {
    !p.Call? && !p.Input?
  }

  function AddText(p: Part, text: string): Part {
    match p
    case Markdown(id, content) => Markdown(id, content + text)
    case Reasoning(id, content) => Reasoning(id, content + text)
    case _ => p
  }

  /** No part before `i` has that id. */
  predicate IsFirst(parts: seq<Part>, i: nat, partId: string) {
    i < |parts| && PartId(parts[i]) == Some(partId) && forall j :: 0 <= j < i ==> PartId(parts[j]) != Some(partId)
  }

  /** What an action streams to the text part at a place: its content, if it is a delta of that sort for the active
      turn that names the part, and the part is the first of its name. */
  function Streamed(s: Chat, a: Action, w: Place): string {
    if !w.InActive? || s.active.None? || w.i >= |s.active.value.parts| then ""
    else
      var parts := s.active.value.parts;
      if ((a.TextDelta? && parts[w.i].Markdown?) || (a.ReasoningDelta? && parts[w.i].Reasoning?))
         && s.active.value.id == a.turnId && IsFirst(parts, w.i, a.partId)
      then a.content else ""
  }

  /** Everything a run streams to the part followed from a place, in order. */
  function StreamedBy(s: Chat, actions: seq<Action>, w: Place): string {
    if |actions| == 0 then ""
    else
      var front := actions[..|actions| - 1];
      StreamedBy(s, front, w) + Streamed(Run(s, front), actions[|actions| - 1], FollowRun(s, front, w))
  }

  // ---------- one step ----------

  lemma {:induction false} FirstIsIndex(parts: seq<Part>, i: nat, partId: string)
    requires i < |parts|
    ensures IsFirst(parts, i, partId) <==> IndexOfPart(parts, partId) == i
  {
  }

  lemma DeltaStreams(s: Chat, a: Action, i: nat)
    requires s.active.Some? && i < |s.active.value.parts| && IsPlain(s.active.value.parts[i]) && (a.TextDelta? || a.ReasoningDelta?)
    ensures
      var t := Reduce(s, a);
      && t.active.Some? && i < |t.active.value.parts|
      && t.active.value.parts[i] == AddText(s.active.value.parts[i], Streamed(s, a, InActive(i)))
  {
    var parts := s.active.value.parts;
    FirstIsIndex(parts, i, a.partId);
    NothingAdded(parts[i]);
  }

  lemma NothingAdded(p: Part)
    ensures AddText(p, "") == p
  {
  }

  lemma InputKeepsText(s: Chat, a: Action, i: nat)
    requires s.active.Some? && i < |s.active.value.parts| && IsPlain(s.active.value.parts[i])
    requires a.InputRequested? || a.InputCompleted? || a.InputAnswerChanged?
    ensures
      var t := Reduce(s, a);
      t.active.Some? && i < |t.active.value.parts| && t.active.value.parts[i] == s.active.value.parts[i]
  {
    var parts := s.active.value.parts;
    match a
    case InputRequested(request) =>
      assert !IsOpenRequest(parts[i], request.id);
      assert UpsertParts(parts, request)[i] == parts[i];
    case InputCompleted(requestId, _, _) => assert FindOpen(parts, requestId) != i;
    case InputAnswerChanged(requestId, _, _) => assert FindOpen(parts, requestId) != i;
    case _ =>
  }

  lemma OthersKeepText(s: Chat, a: Action, i: nat)
    requires s.active.Some? && i < |s.active.value.parts| && IsPlain(s.active.value.parts[i])
    requires !MovesTurn(a) && !a.InputRequested? && !a.InputCompleted? && !a.InputAnswerChanged? && !a.TextDelta? && !a.ReasoningDelta?
    ensures
      var t := Reduce(s, a);
      t.active.Some? && i < |t.active.value.parts| && t.active.value.parts[i] == s.active.value.parts[i]
  {
    if a.CallUpdate? {
      if IsActive(s, a.turnId) { UpdateReaches(s, a, i); } else { assert Reduce(s, a).active == s.active; }
    } else if a.ResponsePart? || a.CallStart? || a.Usage? {
      assert |Reduce(s, a).active.value.parts| >= |s.active.value.parts|;
    } else {
      ActiveUntouched(s, a);
    }
  }

  /** A plain part followed through one action has been given what was streamed to it, and is otherwise as it was. */
  lemma TextAfter(s: Chat, a: Action, w: Place, p: Part)
    requires PartAt(s, w) == Some(p) && IsPlain(p) && !Follow(s, a, w).Gone?
    ensures PartAt(Reduce(s, a), Follow(s, a, w)) == Some(AddText(p, Streamed(s, a, w)))
  {
    NothingAdded(p);
    match w {
      case InActive(i) =>
        if a.TextDelta? || a.ReasoningDelta? {
          DeltaStreams(s, a, i);
        } else if Follow(s, a, w) != w {
          EntersHistory(s, a, i);
        } else if MovesTurn(a) {
          TurnUntouched(s, a, i);
        } else if a.InputRequested? || a.InputCompleted? || a.InputAnswerChanged? {
          InputKeepsText(s, a, i);
        } else {
          OthersKeepText(s, a, i);
        }
      case InTurn(j, i) => HistoryFollows(s, a, j, i);
    }
  }

  // ---------- whole runs ----------

  lemma AddedTwice(p: Part, a: string, b: string)
    requires IsPlain(p)
    ensures AddText(AddText(p, a), b) == AddText(p, a + b) && IsPlain(AddText(p, a))
  {
    match p
    case Markdown(_, content) => assert (content + a) + b == content + (a + b);
    case Reasoning(_, content) => assert (content + a) + b == content + (a + b);
    case _ =>
  }

  /** Over any run a plain part, followed into the history and back, is its starting text and then everything
      streamed to it, in order; nothing else ever changes it, and parts without text never change. */
  lemma {:induction false} TextIsWhatWasStreamed(s: Chat, actions: seq<Action>, w: Place, p: Part)
    requires PartAt(s, w) == Some(p) && IsPlain(p) && !FollowRun(s, actions, w).Gone?
    ensures PartAt(Run(s, actions), FollowRun(s, actions, w)) == Some(AddText(p, StreamedBy(s, actions, w)))
    decreases |actions|
  {
    NothingAdded(p);
    if |actions| > 0 {
      var front := actions[..|actions| - 1];
      var text := StreamedBy(s, front, w);
      TextIsWhatWasStreamed(s, front, w, p);
      AddedTwice(p, text, Streamed(Run(s, front), actions[|actions| - 1], FollowRun(s, front, w)));
      TextAfter(Run(s, front), actions[|actions| - 1], FollowRun(s, front, w), AddText(p, text));
    }
  }

  // ---------- what a turn gains ----------

  /** The part an action adds to the active turn, if any. */
  function Gained(s: Chat, a: Action): seq<Part>
    requires s.active.Some?
  {
    match a
    case ResponsePart(turnId, part) => if s.active.value.id == turnId && !part.Failure? then [part] else []
    case CallStart(turnId, base) => if s.active.value.id == turnId then [Call(Streaming(base, None, None))] else []
    case InputRequested(request) =>
      if exists i :: 0 <= i < |s.active.value.parts| && IsOpenRequest(s.active.value.parts[i], request.id) then []
      else [Input(request, None)]
    case _ => []
  }

  /** While a turn goes on its parts keep their places, and a new one comes last. */
  lemma TurnGains(s: Chat, a: Action)
    requires s.active.Some? && !MovesTurn(a)
    ensures
      var t, gained := Reduce(s, a), Gained(s, a);
      && t.active.Some? && t.active.value.id == s.active.value.id
      && |t.active.value.parts| == |s.active.value.parts| + |gained|
      && (|gained| > 0 ==> t.active.value.parts == s.active.value.parts + gained)
  {
    if a.InputRequested? { RequestGains(s.active.value.parts, a.request); }
  }

  lemma RequestGains(parts: seq<Part>, request: InputRequest)
    ensures (exists i :: 0 <= i < |parts| && IsOpenRequest(parts[i], request.id)) <==> FindOpen(parts, request.id) < |parts|
  {
  }
}
