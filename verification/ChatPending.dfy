/** The pending messages over whole runs: which of them stand, and in what order. */
module ChatPending {
  import opened Collections
  import opened ChatSpec
  import opened ChatQueue

  /** A pending message of that id is taken off: removed, or made a turn of its own. */
  predicate TakesOff(a: Action, kind: PendingKind, id: string) {
    (a.PendingMessageRemoved? && a.kind == kind && a.id == id)
    || (a.TurnStarted? && id != "" && a.queuedMessageId == Some(id))
  }

  /** Whether a message stands at the end of a run: it was set last under its id, and not taken off since. */
  function Stands(before: bool, actions: seq<Action>, kind: PendingKind, m: Pending): bool {
    if |actions| == 0 then before
    else
      var n := |actions| - 1;
      var a := actions[n];
      if a.PendingMessageSet? && a.kind == kind && a.id == m.id then a.message == m.message
      else !TakesOff(a, kind, m.id) && Stands(before, actions[..n], kind, m)
  }

  /** The queue holds exactly the messages that stand. */
  lemma {:induction false} QueueHoldsWhatStands(s: Chat, actions: seq<Action>, m: Pending)
    requires QueueOk(s)
    ensures m in Queue(Run(s, actions)) <==> Stands(m in Queue(s), actions, Queued, m)
    decreases |actions|
  {
    if |actions| > 0 {
      var n := |actions| - 1;
      QueueHoldsWhatStands(s, actions[..n], m);
      QueueOverRuns(s, actions[..n]);
      StepHolds(Run(s, actions[..n]), actions[n], m);
    }
  }

  /** A message is in the queue after an action exactly if the action set it, or it was there and is not taken off. */
  predicate HoldsAfter(before: seq<Pending>, a: Action, m: Pending, after: seq<Pending>) {
    m in after <==>
      if a.PendingMessageSet? && a.kind.Queued? && a.id == m.id then a.message == m.message
      else m in before && !TakesOff(a, Queued, m.id)
  }

  lemma StepHolds(s: Chat, a: Action, m: Pending)
    requires QueueOk(s)
    ensures HoldsAfter(Queue(s), a, m, Queue(Reduce(s, a)))
  {
    if a.PendingMessageSet? { SettingHolds(s, a, m); }
    else if a.PendingMessageRemoved? { RemovalHolds(s, a, m); }
    else if a.TurnStarted? { StartHolds(s, a, m); }
    else if a.QueuedMessagesReordered? { ReorderHolds(s, a, m); }
    else { QueueUntouched(s, a); }
  }

  lemma SettingHolds(s: Chat, a: Action, m: Pending)
    requires QueueOk(s) && a.PendingMessageSet?
    ensures HoldsAfter(Queue(s), a, m, Queue(Reduce(s, a)))
  {
    if a.kind.Queued? { SetHolds(Queue(s), Queue(Reduce(s, a)), Pending(a.id, a.message), m); }
  }

  lemma ReorderHolds(s: Chat, a: Action, m: Pending)
    requires QueueOk(s) && a.QueuedMessagesReordered?
    ensures HoldsAfter(Queue(s), a, m, Queue(Reduce(s, a)))
  {
    if s.queued.Some? { ReorderKeepsMessages(s.queued.value, a.order); }
  }

  lemma RemovalHolds(s: Chat, a: Action, m: Pending)
    requires a.PendingMessageRemoved?
    ensures HoldsAfter(Queue(s), a, m, Queue(Reduce(s, a)))
  {
    WithoutIdIsSub(Queue(s), a.id);
    if |WithoutId(Queue(s), a.id)| == |Queue(s)| { WithoutNothing(Queue(s), a.id); }
  }

  lemma {:induction false} WithoutNothing(messages: seq<Pending>, id: string)
    requires |WithoutId(messages, id)| == |messages|
    ensures WithoutId(messages, id) == messages
    decreases |messages|
  {
    if |messages| > 0 { WithoutNothing(messages[1..], id); }
  }

  lemma StartHolds(s: Chat, a: Action, m: Pending)
    requires a.TurnStarted?
    ensures HoldsAfter(Queue(s), a, m, Queue(Reduce(s, a)))
  {
    if a.queuedMessageId.Some? { WithoutIdIsSub(Queue(s), a.queuedMessageId.value); }
  }

  lemma SetHolds(before: seq<Pending>, after: seq<Pending>, added: Pending, m: Pending)
    requires DistinctIds(before)
    requires
      var i := IndexOf(before, added.id);
      after == if i < |before| then before[i := added] else before + [added]
    ensures m in after <==> if added.id == m.id then added == m else m in before
  {
    var i := IndexOf(before, added.id);
    if i < |before| {
      assert after[i] == added;
      assert forall k :: 0 <= k < |before| && k != i ==> after[k] == before[k];
      if m in before && m.id != added.id {
        var k :| 0 <= k < |before| && before[k] == m;
        assert after[k] == m;
      }
    }
  }

  /** Messages no action of the run names keep their order among themselves. */
  lemma {:induction false} UnnamedKeepOrder(s: Chat, actions: seq<Action>, named: seq<string>)
    requires forall k :: 0 <= k < |actions| ==> !actions[k].QueuedMessagesReordered? && NamesIn(actions[k], named)
    ensures Unmentioned(Queue(Run(s, actions)), named) == Unmentioned(Queue(s), named)
    decreases |actions|
  {
    if |actions| > 0 {
      var n := |actions| - 1;
      UnnamedKeepOrder(s, actions[..n], named);
      StepKeepsOrder(Run(s, actions[..n]), actions[n], named);
    }
  }

  /** The queued message an action names, if any, is in the list. */
  predicate NamesIn(a: Action, named: seq<string>) {
    && (a.PendingMessageSet? && a.kind.Queued? ==> a.id in named)
    && (a.PendingMessageRemoved? && a.kind.Queued? ==> a.id in named)
    && (a.TurnStarted? && a.queuedMessageId.Some? ==> a.queuedMessageId.value in named)
  }

  lemma StepKeepsOrder(s: Chat, a: Action, named: seq<string>)
    requires !a.QueuedMessagesReordered? && NamesIn(a, named)
    ensures Unmentioned(Queue(Reduce(s, a)), named) == Unmentioned(Queue(s), named)
  {
    if a.PendingMessageSet? { SettingKeepsOrder(s, a, named); }
    else if a.PendingMessageRemoved? { RemovalKeepsOrder(s, a, named); }
    else if a.TurnStarted? { StartKeepsOrder(s, a, named); }
    else { QueueUntouched(s, a); }
  }

  lemma SettingKeepsOrder(s: Chat, a: Action, named: seq<string>)
    requires a.PendingMessageSet? && NamesIn(a, named)
    ensures Unmentioned(Queue(Reduce(s, a)), named) == Unmentioned(Queue(s), named)
  {
    if a.kind.Queued? { SetKeepsOrder(Queue(s), Pending(a.id, a.message), named); }
  }

  lemma RemovalKeepsOrder(s: Chat, a: Action, named: seq<string>)
    requires a.PendingMessageRemoved? && NamesIn(a, named)
    ensures Unmentioned(Queue(Reduce(s, a)), named) == Unmentioned(Queue(s), named)
  {
    if a.kind.Queued? { WithoutKeepsOrder(Queue(s), a.id, named); }
  }

  lemma StartKeepsOrder(s: Chat, a: Action, named: seq<string>)
    requires a.TurnStarted? && NamesIn(a, named)
    ensures Unmentioned(Queue(Reduce(s, a)), named) == Unmentioned(Queue(s), named)
  {
    if a.queuedMessageId.Some? { WithoutKeepsOrder(Queue(s), a.queuedMessageId.value, named); }
  }

  lemma SetKeepsOrder(before: seq<Pending>, added: Pending, named: seq<string>)
    requires added.id in named
    ensures
      var i := IndexOf(before, added.id);
      Unmentioned(if i < |before| then before[i := added] else before + [added], named) == Unmentioned(before, named)
  {
    var i := IndexOf(before, added.id);
    UnmentionedOne(added, named);
    if i < |before| {
      ReplacedIsSame(before[..i], before[i], added, before[i + 1..], named);
      assert before == before[..i] + [before[i]] + before[i + 1..];
      assert before[i := added] == before[..i] + [added] + before[i + 1..];
    } else {
      UnmentionedConcat(before, [added], named);
    }
  }

  lemma ReplacedIsSame(a: seq<Pending>, m: Pending, n: Pending, b: seq<Pending>, named: seq<string>)
    requires m.id in named && n.id in named
    ensures Unmentioned(a + [m] + b, named) == Unmentioned(a + [n] + b, named)
  {
    UnmentionedConcat(a + [m], b, named);
    UnmentionedConcat(a + [n], b, named);
    UnmentionedConcat(a, [m], named);
    UnmentionedConcat(a, [n], named);
    UnmentionedOne(m, named);
    UnmentionedOne(n, named);
  }

  lemma {:induction false} WithoutKeepsOrder(messages: seq<Pending>, id: string, named: seq<string>)
    requires id in named
    ensures Unmentioned(WithoutId(messages, id), named) == Unmentioned(messages, named)
    decreases |messages|
  {
    if |messages| > 0 {
      WithoutKeepsOrder(messages[1..], id, named);
      assert messages == [messages[0]] + messages[1..];
      HeadKeepsOrder(messages[0], messages[1..], WithoutId(messages[1..], id), id, named);
    }
  }

  lemma HeadKeepsOrder(m: Pending, rest: seq<Pending>, kept: seq<Pending>, id: string, named: seq<string>)
    requires id in named && Unmentioned(kept, named) == Unmentioned(rest, named)
    ensures Unmentioned((if m.id == id then [] else [m]) + kept, named) == Unmentioned([m] + rest, named)
  {
    UnmentionedConcat([m], rest, named);
    UnmentionedOne(m, named);
    if m.id == id {
      assert [] + kept == kept;
    } else {
      UnmentionedConcat([m], kept, named);
    }
  }

  /** A message set under a new id comes last; under a queued id it takes that message's place. */
  lemma SetTakesPlace(s: Chat, id: string, message: Data)
    requires QueueOk(s)
    ensures
      var before, after := Queue(s), Queue(Reduce(s, PendingMessageSet(Queued, id, message)));
      if exists k :: 0 <= k < |before| && before[k].id == id then
        && |after| == |before|
        && forall k :: 0 <= k < |before| ==> after[k] == if before[k].id == id then Pending(id, message) else before[k]
      else after == before + [Pending(id, message)]
  {
  }

  /** The steering message is the one that stands. */
  lemma {:induction false} SteeringIsWhatStands(s: Chat, actions: seq<Action>, m: Pending)
    ensures Run(s, actions).steering == Some(m) <==> SteeringStands(s.steering, actions, m)
    decreases |actions|
  {
    if |actions| > 0 {
      var n := |actions| - 1;
      SteeringIsWhatStands(s, actions[..n], m);
      StepSteers(Run(s, actions[..n]), actions[n], m);
    }
  }

  lemma StepSteers(s: Chat, a: Action, m: Pending)
    ensures Reduce(s, a).steering == Some(m) <==>
      if a.PendingMessageSet? && a.kind.Steering? then Pending(a.id, a.message) == m
      else s.steering == Some(m) && !TakesOff(a, Steering, m.id)
  {
    if !a.PendingMessageSet? && !a.PendingMessageRemoved? && !a.TurnStarted? { SteeringUntouched(s, a); }
  }

  lemma SteeringUntouched(s: Chat, a: Action)
    requires !a.PendingMessageSet? && !a.PendingMessageRemoved? && !a.TurnStarted?
    ensures Reduce(s, a).steering == s.steering
  {
  }

  /** A steering message is replaced by the next one, whatever its id. */
  function SteeringStands(before: Option<Pending>, actions: seq<Action>, m: Pending): bool {
    if |actions| == 0 then before == Some(m)
    else
      var n := |actions| - 1;
      var a := actions[n];
      if a.PendingMessageSet? && a.kind.Steering? then Pending(a.id, a.message) == m
      else !TakesOff(a, Steering, m.id) && SteeringStands(before, actions[..n], m)
  }
}
