/** The queued messages: distinct, never an empty list, and only permuted by a reorder. */
module ChatQueue {
  import opened Collections
  import opened ChatSpec

  ghost predicate DistinctIds(messages: seq<Pending>) {
    forall i, j :: 0 <= i < j < |messages| ==> messages[i].id != messages[j].id
  }

  /** The queue is missing or holds at least one message, and no id twice. */
  ghost predicate QueueOk(s: Chat) {
    s.queued.Some? ==> |s.queued.value| > 0 && DistinctIds(s.queued.value)
  }

  // ---------- removing and setting ----------

  lemma {:induction false} WithoutIdIsSub(messages: seq<Pending>, id: string)
    ensures forall m :: m in WithoutId(messages, id) <==> m in messages && m.id != id
    decreases |messages|
  {
    if |messages| > 0 {
      WithoutIdIsSub(messages[1..], id);
      assert messages == [messages[0]] + messages[1..];
    }
  }

  lemma {:induction false} WithoutIdDistinct(messages: seq<Pending>, id: string)
    requires DistinctIds(messages)
    ensures DistinctIds(WithoutId(messages, id))
    decreases |messages|
  {
    if |messages| > 0 {
      WithoutIdDistinct(messages[1..], id);
      WithoutIdIsSub(messages[1..], id);
      var rest := WithoutId(messages[1..], id);
      forall k | 0 <= k < |rest| ensures rest[k].id != messages[0].id {
        assert rest[k] in messages[1..];
        var j :| 0 <= j < |messages[1..]| && messages[1..][j] == rest[k];
        assert messages[j + 1] == rest[k];
      }
    }
  }

  lemma SetKeepsQueue(s: Chat, kind: PendingKind, id: string, message: Data)
    requires QueueOk(s)
    ensures QueueOk(SetPending(s, kind, id, message))
  {
  }

  // ---------- reordering ----------

  lemma {:induction false} LookupFinds(messages: seq<Pending>, id: string)
    ensures Lookup(messages, id).Some? <==> exists i :: 0 <= i < |messages| && messages[i].id == id
    ensures Lookup(messages, id).Some? ==> Lookup(messages, id).value.id == id && Lookup(messages, id).value in messages
    decreases |messages|
  {
    if |messages| > 0 {
      var n := |messages| - 1;
      LookupFinds(messages[..n], id);
      assert forall i :: 0 <= i < n ==> messages[..n][i] == messages[i];
    }
  }

  lemma {:induction false} LookupIsUnique(messages: seq<Pending>, i: nat)
    requires DistinctIds(messages) && i < |messages|
    ensures Lookup(messages, messages[i].id) == Some(messages[i])
    decreases |messages|
  {
    if i < |messages| - 1 { LookupIsUnique(messages[..|messages| - 1], i); }
  }

  /** Which messages an order brings to the front: those it names. */
  lemma {:induction false} MentionedAre(existing: seq<Pending>, order: seq<string>)
    ensures forall m :: m in Mentioned(existing, order) <==> m.id in order && Lookup(existing, m.id) == Some(m)
    ensures DistinctIds(Mentioned(existing, order))
    decreases |order|
  {
    if |order| > 0 {
      var n := |order| - 1;
      var front, id := order[..n], order[n];
      MentionedAre(existing, front);
      LookupFinds(existing, id);
      assert order == front + [id];
      var found := Lookup(existing, id);
      var last := if found.Some? && id !in front then [found.value] else [];
      assert forall m :: m in Mentioned(existing, order) <==> m in Mentioned(existing, front) || m in last;
      forall k | 0 <= k < |Mentioned(existing, front)| && |last| > 0 ensures Mentioned(existing, front)[k].id != id {
        assert Mentioned(existing, front)[k] in Mentioned(existing, front);
      }
    }
  }

  lemma {:induction false} UnmentionedAre(existing: seq<Pending>, order: seq<string>)
    ensures forall m :: m in Unmentioned(existing, order) <==> m in existing && m.id !in order
    ensures DistinctIds(existing) ==> DistinctIds(Unmentioned(existing, order))
    decreases |existing|
  {
    if |existing| > 0 {
      var n := |existing| - 1;
      UnmentionedAre(existing[..n], order);
      assert existing == existing[..n] + [existing[n]];
      var front := Unmentioned(existing[..n], order);
      forall k | 0 <= k < |front| && DistinctIds(existing) ensures front[k].id != existing[n].id {
        assert front[k] in existing[..n];
        var j :| 0 <= j < n && existing[..n][j] == front[k];
      }
    }
  }

  /** A reorder keeps exactly the same messages, each once. */
  lemma ReorderKeepsMessages(existing: seq<Pending>, order: seq<string>)
    requires DistinctIds(existing)
    ensures DistinctIds(Reordered(existing, order))
    ensures forall m :: m in Reordered(existing, order) <==> m in existing
  {
    MentionedAre(existing, order);
    UnmentionedAre(existing, order);
    var a, b := Mentioned(existing, order), Unmentioned(existing, order);
    forall m ensures m in a + b <==> m in existing {
      LookupFinds(existing, m.id);
      if m in existing {
        var i :| 0 <= i < |existing| && existing[i] == m;
        LookupIsUnique(existing, i);
      }
    }
    forall i, k | 0 <= i < |a| && 0 <= k < |b| ensures a[i].id != b[k].id {
      assert a[i] in a && b[k] in b;
    }
  }

  lemma DistinctNoDup(messages: seq<Pending>)
    requires DistinctIds(messages)
    ensures forall m :: multiset(messages)[m] == if m in messages then 1 else 0
  {
    if |messages| > 0 {
      var n := |messages| - 1;
      DistinctNoDup(messages[..n]);
      assert messages == messages[..n] + [messages[n]];
    }
  }

  /** A reorder is a permutation of the queue. */
  lemma ReorderIsPermutation(existing: seq<Pending>, order: seq<string>)
    requires DistinctIds(existing)
    ensures multiset(Reordered(existing, order)) == multiset(existing)
  {
    ReorderKeepsMessages(existing, order);
    DistinctNoDup(existing);
    DistinctNoDup(Reordered(existing, order));
  }

  /** The first place at which the order names an id, or its length. */
  function FirstMention(order: seq<string>, id: string): (i: nat)
    ensures i <= |order|
    ensures i < |order| <==> id in order
    ensures i < |order| ==> order[i] == id && id !in order[..i]
  {
    if |order| == 0 || order[0] == id then 0
    else
      var i := 1 + FirstMention(order[1..], id);
      assert order == [order[0]] + order[1..];
      assert i <= |order| ==> order[..i] == [order[0]] + order[1..][..i - 1];
      i
  }

  /** The mentioned messages come by first mention. */
  lemma {:induction false} MentionedByFirstMention(existing: seq<Pending>, order: seq<string>, i: nat, j: nat)
    requires i < j < |Mentioned(existing, order)|
    ensures FirstMention(order, Mentioned(existing, order)[i].id) < FirstMention(order, Mentioned(existing, order)[j].id) < |order|
    decreases |order|
  {
    var n := |order| - 1;
    var front, id := order[..n], order[n];
    var before := Mentioned(existing, front);
    MentionedAre(existing, front);
    LookupFinds(existing, id);
    assert before[i] in before;
    FirstMentionInFront(order, n, before[i].id);
    if j < |before| {
      MentionedByFirstMention(existing, front, i, j);
      assert before[j] in before;
      FirstMentionInFront(order, n, before[j].id);
    } else {
      assert forall m :: 0 <= m < n ==> front[m] == order[m] && front[m] in front;
    }
  }

  lemma {:induction false} FirstMentionInFront(order: seq<string>, n: nat, id: string)
    requires n <= |order| && id in order[..n]
    ensures FirstMention(order, id) == FirstMention(order[..n], id) < n
  {
    var i, k := FirstMention(order, id), FirstMention(order[..n], id);
    assert forall m :: 0 <= m < i ==> order[..i][m] == order[m] && order[..i][m] in order[..i];
    assert forall m :: 0 <= m < k ==> order[..n][..k][m] == order[m] && order[..n][..k][m] in order[..n][..k];
  }

  /** The rest of the queue is as it was: leaving out the mentioned messages gives the same list before and after. */
  lemma RestKeepsOrder(existing: seq<Pending>, order: seq<string>)
    ensures Unmentioned(Reordered(existing, order), order) == Unmentioned(existing, order)
  {
    var a, b := Mentioned(existing, order), Unmentioned(existing, order);
    MentionedInOrder(existing, a, order);
    UnmentionedNotInOrder(existing, b, order);
    UnmentionedConcat(a, b, order);
    UnmentionedNone(a, order);
    UnmentionedAll(b, order);
  }

  lemma MentionedInOrder(existing: seq<Pending>, a: seq<Pending>, order: seq<string>)
    requires a == Mentioned(existing, order)
    ensures forall k :: 0 <= k < |a| ==> a[k].id in order
  {
    MentionedAre(existing, order);
    assert forall k :: 0 <= k < |a| ==> a[k] in a;
  }

  lemma UnmentionedNotInOrder(existing: seq<Pending>, b: seq<Pending>, order: seq<string>)
    requires b == Unmentioned(existing, order)
    ensures forall k :: 0 <= k < |b| ==> b[k].id !in order
  {
    UnmentionedAre(existing, order);
    assert forall k :: 0 <= k < |b| ==> b[k] in b;
  }

  lemma {:induction false} UnmentionedConcat(a: seq<Pending>, b: seq<Pending>, order: seq<string>)
    ensures Unmentioned(a + b, order) == Unmentioned(a, order) + Unmentioned(b, order)
    decreases |b|
  {
    if |b| == 0 {
      assert a + b == a;
    } else {
      var n := |b| - 1;
      assert (a + b)[..|a| + n] == a + b[..n];
      UnmentionedConcat(a, b[..n], order);
    }
  }

  lemma {:induction false} UnmentionedNone(a: seq<Pending>, order: seq<string>)
    requires forall k :: 0 <= k < |a| ==> a[k].id in order
    ensures Unmentioned(a, order) == []
    decreases |a|
  {
    if |a| > 0 { UnmentionedNone(a[..|a| - 1], order); }
  }

  lemma {:induction false} UnmentionedAll(b: seq<Pending>, order: seq<string>)
    requires forall k :: 0 <= k < |b| ==> b[k].id !in order
    ensures Unmentioned(b, order) == b
    decreases |b|
  {
    if |b| > 0 {
      UnmentionedAll(b[..|b| - 1], order);
      assert b == b[..|b| - 1] + [b[|b| - 1]];
    }
  }

  // ---------- taking messages off ----------

  function Queue(s: Chat): seq<Pending> {
    if s.queued.Some? then s.queued.value else []
  }

  lemma UnmentionedOne(m: Pending, order: seq<string>)
    ensures Unmentioned([m], order) == if m.id in order then [] else [m]
  {
    assert [m][..0] == [] && Unmentioned([], order) == [];
  }

  /** Removing an id leaves the other messages, in their order. */
  lemma {:induction false} WithoutIdIsRest(messages: seq<Pending>, id: string)
    ensures WithoutId(messages, id) == Unmentioned(messages, [id])
    decreases |messages|
  {
    if |messages| > 0 {
      WithoutIdIsRest(messages[1..], id);
      UnmentionedConcat([messages[0]], messages[1..], [id]);
      assert [messages[0]] + messages[1..] == messages;
      UnmentionedOne(messages[0], [id]);
    }
  }

  /** A turn started from a pending message takes exactly that message off. */
  lemma StartConsumesMessage(s: Chat, turnId: string, startedAt: int, message: Data, id: string)
    requires id != ""
    ensures
      var t := Reduce(s, TurnStarted(turnId, startedAt, message, Some(id)));
      && Queue(t) == Unmentioned(Queue(s), [id])
      && t.steering == (if s.steering.Some? && s.steering.value.id == id then None else s.steering)
  {
    WithoutIdIsRest(Queue(s), id);
  }

  /** A message that is queued and removed again leaves no trace. */
  lemma RemoveUndoesSet(s: Chat, id: string, message: Data)
    requires QueueOk(s) && forall k :: 0 <= k < |Queue(s)| ==> Queue(s)[k].id != id
    ensures RemovePending(SetPending(s, Queued, id, message), Queued, id).queued == s.queued
  {
    var existing, m := Queue(s), Pending(id, message);
    assert SetPending(s, Queued, id, message).queued == Some(existing + [m]);
    WithoutNew(existing, m);
  }

  lemma WithoutNew(existing: seq<Pending>, m: Pending)
    requires forall k :: 0 <= k < |existing| ==> existing[k].id != m.id
    ensures WithoutId(existing + [m], m.id) == existing
  {
    WithoutIdIsRest(existing + [m], m.id);
    UnmentionedConcat(existing, [m], [m.id]);
    UnmentionedAll(existing, [m.id]);
    UnmentionedOne(m, [m.id]);
    assert existing + [] == existing;
  }

  // ---------- whole runs ----------

  predicate MovesQueue(a: Action) {
    a.TurnStarted? || a.PendingMessageSet? || a.PendingMessageRemoved? || a.QueuedMessagesReordered?
  }

  lemma QueueUntouched(s: Chat, a: Action)
    requires !MovesQueue(a)
    ensures Reduce(s, a).queued == s.queued
  {
  }

  lemma ReorderKeepsQueue(s: Chat, order: seq<string>)
    requires QueueOk(s)
    ensures QueueOk(Reduce(s, QueuedMessagesReordered(order)))
  {
    if s.queued.Some? {
      ReorderKeepsMessages(s.queued.value, order);
      SameLength(s.queued.value, Reordered(s.queued.value, order), order);
    }
  }

  lemma SameLength(existing: seq<Pending>, reordered: seq<Pending>, order: seq<string>)
    requires DistinctIds(existing) && reordered == Reordered(existing, order)
    ensures |reordered| == |existing|
  {
    ReorderIsPermutation(existing, order);
    assert |multiset(reordered)| == |reordered| && |multiset(existing)| == |existing|;
  }

  lemma StartKeepsQueue(s: Chat, a: Action)
    requires QueueOk(s) && a.TurnStarted?
    ensures QueueOk(Reduce(s, a))
  {
    if s.queued.Some? && a.queuedMessageId.Some? { WithoutIdDistinct(s.queued.value, a.queuedMessageId.value); }
  }

  lemma RemoveKeepsQueue(s: Chat, kind: PendingKind, id: string)
    requires QueueOk(s)
    ensures QueueOk(RemovePending(s, kind, id))
  {
    if s.queued.Some? { WithoutIdDistinct(s.queued.value, id); }
  }

  lemma StepKeepsQueue(s: Chat, a: Action)
    requires QueueOk(s)
    ensures QueueOk(Reduce(s, a))
  {
    match a
    case TurnStarted(_, _, _, _) => StartKeepsQueue(s, a);
    case PendingMessageSet(kind, id, message) => SetKeepsQueue(s, kind, id, message);
    case PendingMessageRemoved(kind, id) => RemoveKeepsQueue(s, kind, id);
    case QueuedMessagesReordered(order) => ReorderKeepsQueue(s, order);
    case _ => QueueUntouched(s, a);
  }

  /** Over every run the queued ids stay distinct and the list is never present but empty. */
  lemma {:induction false} QueueOverRuns(s: Chat, actions: seq<Action>)
    requires QueueOk(s)
    ensures QueueOk(Run(s, actions))
    decreases |actions|
  {
    if |actions| > 0 {
      QueueOverRuns(s, actions[..|actions| - 1]);
      StepKeepsQueue(Run(s, actions[..|actions| - 1]), actions[|actions| - 1]);
    }
  }
}
