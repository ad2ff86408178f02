/** The steps of the chat reducer that work on local copies, with loops, pushes and flags. */
module Chat {
  import opened Collections
  import opened StatusBits
  import opened ChatSpec
  import ChatHistory
  import ChatQueue

  // ---------- parts of the active turn ----------

  /** Settles the calls of a turn that ends. */
  method SettledParts(parts: seq<Part>) returns (settled: seq<Part>)
    ensures settled == SettleParts(parts)
    ensures |settled| == |parts| && ChatHistory.AllSettled(settled)
  {
    ChatHistory.SettlePartsAt(parts);
    settled := [];
    for i := 0 to |parts|
      invariant settled == SettleParts(parts[..i])
    {
      assert parts[..i + 1][..i] == parts[..i];
      var part := parts[i];
      if part.Call? && !part.call.Completed? && !part.call.Cancelled? {
        part := Call(Settle(part.call));
      }
      settled := settled + [part];
    }
    assert parts[..|parts|] == parts;
  }

  /** The active turn becomes a record of the history. */
  method EndActiveTurn(s: ChatSpec.Chat, turnId: string, state: TurnState, duration: int, failure: Option<Part>) returns (next: ChatSpec.Chat)
    requires failure.Some? ==> failure.value.Failure?
    ensures next == EndTurn(s, turnId, state, duration, if failure.Some? then [failure.value] else [])
    ensures IsActive(s, turnId) ==> |next.turns| == |s.turns| + 1 && ChatHistory.AllSettled(next.turns[|s.turns|].parts)
  {
    if s.active.None? || s.active.value.id != turnId {
      return s;
    }
    var active := s.active.value;
    ChatHistory.EndedTurnSettled(active, state, duration, if failure.Some? then [failure.value] else []);
    var parts := SettledParts(active.parts);
    assert parts + [] == parts;
    if failure.Some? {
      parts := parts + [failure.value];
    }
    var length := if duration < 0 then 0 else duration;
    var turn := Turn(active.id, Some(active.startedAt), Some(length), active.message, parts, active.usage, state);
    next := s.(turns := s.turns + [turn], active := None, modifiedAt := active.startedAt + length);
    next := next.(status := WithActivity(s.status, if state.TurnError? then ERROR else IDLE));
  }

  /** Updates every call of that id; `found` says whether any of them changed. */
  method UpdatedCalls(parts: seq<Part>, toolCallId: string, meta: Option<Data>, change: CallChange)
    returns (updated: seq<Part>, found: bool)
    ensures updated == UpdateCalls(parts, toolCallId, meta, change)
    ensures !found ==> updated == parts
  {
    updated, found := [], false;
    for i := 0 to |parts|
      invariant updated == UpdateCalls(parts[..i], toolCallId, meta, change)
      invariant !found ==> updated == parts[..i]
    {
      UpdateCallsNext(parts, i, toolCallId, meta, change);
      var part, changed := UpdatedPart(parts[i], toolCallId, meta, change);
      found := found || changed;
      updated := updated + [part];
    }
    assert parts[..|parts|] == parts;
  }

  lemma UpdateCallsNext(parts: seq<Part>, i: nat, toolCallId: string, meta: Option<Data>, change: CallChange)
    requires i < |parts|
    ensures UpdateCalls(parts[..i + 1], toolCallId, meta, change)
         == UpdateCalls(parts[..i], toolCallId, meta, change) + [UpdatePart(parts[i], toolCallId, meta, change)]
    ensures parts[..i + 1] == parts[..i] + [parts[i]]
  {
    assert parts[..i + 1][..i] == parts[..i];
  }

  method UpdatedPart(part: Part, toolCallId: string, meta: Option<Data>, change: CallChange) returns (updated: Part, changed: bool)
    ensures updated == UpdatePart(part, toolCallId, meta, change)
    ensures !changed ==> updated == part
  {
    updated, changed := part, false;
    if part.Call? && part.call.base.id == toolCallId {
      var call := UpdateCall(part.call, meta, change);
      updated, changed := Call(call), call != part.call;
    }
  }

  method UpdateToolCall(s: ChatSpec.Chat, turnId: string, toolCallId: string, meta: Option<Data>, change: CallChange)
    returns (next: ChatSpec.Chat)
    ensures next == UpdateToolCallInParts(s, turnId, toolCallId, meta, change)
  {
    if s.active.None? || s.active.value.id != turnId {
      return s;
    }
    var parts, found := UpdatedCalls(s.active.value.parts, toolCallId, meta, change);
    next := if found then s.(active := Some(s.active.value.(parts := parts))) else s;
  }

  /** Offers a delta to the first part of that id; `found` stops the search. */
  method ExtendedPart(parts: seq<Part>, partId: string, reasoning: bool, content: string) returns (updated: seq<Part>, found: bool)
    ensures updated == ExtendFirst(parts, partId, reasoning, content)
    ensures !found ==> updated == parts
  {
    ghost var at := IndexOfPart(parts, partId);
    updated, found := [], false;
    for i := 0 to |parts|
      invariant found == (at < i)
      invariant updated == if found then parts[..i][at := Extend(parts[at], reasoning, content)] else parts[..i]
    {
      if !found && PartId(parts[i]) == Some(partId) {
        found := true;
        updated := updated + [Extend(parts[i], reasoning, content)];
      } else {
        updated := updated + [parts[i]];
      }
    }
  }

  /** The first open request of that id, or the number of parts. */
  method FindOpenInputRequestPart(parts: seq<Part>, requestId: string) returns (index: nat)
    ensures index == FindOpen(parts, requestId)
  {
    index := 0;
    while index < |parts| && !IsOpenRequest(parts[index], requestId)
      invariant index <= |parts| && forall j :: 0 <= j < index ==> !IsOpenRequest(parts[j], requestId)
    {
      index := index + 1;
    }
  }

  /** A request is pushed, or replaces the open one of its id, whose drafts it keeps unless it brings its own. */
  method UpsertInputRequestPart(s: ChatSpec.Chat, request: InputRequest) returns (next: ChatSpec.Chat)
    ensures next == UpsertInputRequest(s, request)
    ensures s.active.Some? ==> ActivityOf(next.active) == INPUT_NEEDED
  {
    if s.active.None? {
      return s;
    }
    var parts := s.active.value.parts;
    var index := FindOpenInputRequestPart(parts, request.id);
    if index < |parts| {
      parts := parts[index := Input(request.(answers := Or(request.answers, parts[index].request.answers)), None)];
    } else {
      parts := parts + [Input(request, None)];
    }
    assert Blocks(parts[index]);
    next := s.(active := Some(s.active.value.(parts := parts)));
    next := next.(status := Unread(SummaryStatus(next)));
  }

  // ---------- the queue ----------

  /** The messages by id, the last one for an id winning. */
  method IndexById(messages: seq<Pending>) returns (byId: map<string, Pending>)
    ensures forall id :: id in byId <==> Lookup(messages, id).Some?
    ensures forall id :: id in byId ==> Lookup(messages, id) == Some(byId[id])
  {
    byId := map[];
    for i := 0 to |messages|
      invariant forall id :: id in byId <==> Lookup(messages[..i], id).Some?
      invariant forall id :: id in byId ==> Lookup(messages[..i], id) == Some(byId[id])
    {
      assert messages[..i + 1][..i] == messages[..i];
      byId := byId[messages[i].id := messages[i]];
    }
    assert messages[..|messages|] == messages;
  }

  /** Reorders the queue: the messages named by `order`, each at its first mention, then the others. */
  method ReorderQueue(existing: seq<Pending>, order: seq<string>) returns (reordered: seq<Pending>)
    ensures reordered == Reordered(existing, order)
    ensures ChatQueue.DistinctIds(existing) ==> multiset(reordered) == multiset(existing)
  {
    var byId := IndexById(existing);
    var ordered: set<string> := {};
    reordered := [];
    for i := 0 to |order|
      invariant reordered == Mentioned(existing, order[..i])
      invariant forall id :: id in ordered <==> id in order[..i] && id in byId
    {
      assert order[..i + 1][..i] == order[..i];
      assert order[..i + 1] == order[..i] + [order[i]];
      if order[i] in byId && order[i] !in ordered {
        ordered := ordered + {order[i]};
        reordered := reordered + [byId[order[i]]];
      }
    }
    assert order[..|order|] == order;
    reordered := AppendOthers(existing, order, ordered, reordered, byId);
    if ChatQueue.DistinctIds(existing) { ChatQueue.ReorderIsPermutation(existing, order); }
  }

  method AppendOthers(existing: seq<Pending>, order: seq<string>, ordered: set<string>, front: seq<Pending>, byId: map<string, Pending>)
    returns (reordered: seq<Pending>)
    requires forall id :: id in ordered <==> id in order && id in byId
    requires forall id :: id in byId <==> Lookup(existing, id).Some?
    ensures reordered == front + Unmentioned(existing, order)
  {
    reordered := front;
    for i := 0 to |existing|
      invariant reordered == front + Unmentioned(existing[..i], order)
    {
      assert existing[..i + 1][..i] == existing[..i];
      ChatQueue.LookupFinds(existing, existing[i].id);
      if existing[i].id !in ordered {
        reordered := reordered + [existing[i]];
      }
    }
    assert existing[..|existing|] == existing;
  }

  // ---------- resuming ----------

  /** The last turn becomes active again if it stopped at an error that can be resumed. */
  method ResumeTurn(s: ChatSpec.Chat, turnId: string) returns (next: ChatSpec.Chat)
    ensures next == Resume(s, turnId)
  {
    if s.active.Some? || |s.turns| == 0 {
      return s;
    }
    var turnIndex := |s.turns| - 1;
    var turn := s.turns[turnIndex];
    if turn.id != turnId || !turn.state.TurnError? || |turn.parts| == 0 {
      return s;
    }
    var last := turn.parts[|turn.parts| - 1];
    if !last.Failure? || !last.resumable {
      return s;
    }
    var turns := s.turns[..turnIndex] + s.turns[turnIndex + 1..];
    assert turns == s.turns[..turnIndex];
    var startedAt := if turn.startedAt.Some? then turn.startedAt.value else s.modifiedAt;
    next := s.(turns := turns, active := Some(ActiveTurn(turn.id, startedAt, turn.message, turn.parts, turn.usage)));
    next := next.(status := Unread(SummaryStatus(next)));
  }
}
