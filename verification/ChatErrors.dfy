/** When a chat shows an error: what an update that finds nothing does to it, and which actions end it. */
module ChatErrors {
  import opened Collections
  import opened StatusBits
  import opened ChatSpec
  import opened ChatStatus

  // ---------- updates that find nothing ----------

  /** The update names another turn, or every call it names leaves it aside. */
  predicate FindsNothing(s: Chat, a: Action)
    requires a.CallUpdate?
  {
    IsActive(s, a.turnId) ==>
      var parts := s.active.value.parts;
      forall i :: 0 <= i < |parts| ==> UpdatePart(parts[i], a.toolCallId, a.meta, a.change) == parts[i]
  }

  /** The update itself returns the chat as it was exactly when it finds nothing. */
  lemma FindsNothingIff(s: Chat, a: Action)
    requires a.CallUpdate?
    ensures UpdateToolCallInParts(s, a.turnId, a.toolCallId, a.meta, a.change) == s <==> FindsNothing(s, a)
  {
    if IsActive(s, a.turnId) {
      var parts := s.active.value.parts;
      var updated := UpdateCalls(parts, a.toolCallId, a.meta, a.change);
      UpdateCallsAt(parts, a.toolCallId, a.meta, a.change);
      WithPartsIff(s, updated);
      if FindsNothing(s, a) { assert updated == parts; }
    }
  }

  lemma WithPartsIff(s: Chat, parts: seq<Part>)
    requires s.active.Some?
    ensures WithParts(s, parts) == s <==> parts == s.active.value.parts
  {
  }

  lemma MaskedIff(status: bv32, activity: bv32)
    requires activity & 31 == activity
    ensures (status & !31) | activity == status <==> status & 31 == activity
  {
  }

  lemma FitsItsBits(s: Chat)
    ensures SummaryStatus(s) == s.status <==> Activity(s.status) == ActivityOf(s.active)
  {
    ActivityFits(ActivityOf(s.active));
    MaskedIff(s.status, ActivityOf(s.active));
  }

  /** But the reducer recomputes the status all the same: it returns the chat as it was exactly when the
      action does not recompute, or the status was up to date already. */
  lemma UnmatchedUpdateIff(s: Chat, a: Action)
    requires a.CallUpdate? && FindsNothing(s, a)
    ensures Reduce(s, a) == s <==> !(Refreshes(a.change) && Activity(s.status) != ActivityOf(s.active))
  {
    FindsNothingIff(s, a);
    FitsItsBits(s);
  }

  /** While the status is derived that leaves one case: an error is shown and the update clears it. */
  lemma UnmatchedUpdateClearsErrorIff(s: Chat, a: Action)
    requires Derived(s) && a.CallUpdate? && FindsNothing(s, a)
    ensures Reduce(s, a) == s <==> !(Refreshes(a.change) && Activity(s.status) == ERROR)
    ensures ErrorMeansIdle(s)
  {
    UnmatchedUpdateIff(s, a);
    ActivitiesDiffer();
  }

  /** Such an update: no turn is active, so it finds nothing, and the error is gone. */
  lemma UnmatchedUpdateCanClear()
    ensures
      var s, a := Bare(ERROR, None), CallUpdate("t", "c", None, CallAuthResolved);
      Derived(s) && FindsNothing(s, a) && Activity(s.status) == ERROR && Activity(Reduce(s, a).status) == IDLE
  {
    WithActivityBits(ERROR, IDLE);
  }

  // ---------- how long an error is shown ----------

  /** An error is shown only while no turn is active. */
  predicate ErrorMeansIdle(s: Chat) {
    Activity(s.status) == ERROR ==> s.active.None?
  }

  /** The actions that end an error. */
  predicate ClearsError(s: Chat, a: Action) {
    || a.TurnStarted?
    || (a.TurnResumes? && CanResume(s, a.turnId))
    || (a.CallUpdate? && Refreshes(a.change))
    || (a.Truncated? && (a.lastTurnId.None? || IndexOfTurn(s.turns, a.lastTurnId.value) < |s.turns|))
  }

  predicate Breaks(s: Chat, a: Action) {
    a.TurnFails? && IsActive(s, a.turnId)
  }

  lemma FailsMeansBreaks(s: Chat, a: Action)
    ensures TouchOf(s, a).Fails? <==> Breaks(s, a)
    ensures s.active.None? ==> (!TouchOf(s, a).Keeps? <==> ClearsError(s, a))
  {
  }

  /** An error is shown after an action exactly when it breaks off the active turn, or one was shown and the
      action does not clear it. */
  lemma ErrorAfterIff(s: Chat, a: Action)
    requires ErrorMeansIdle(s)
    ensures Activity(Reduce(s, a).status) == ERROR <==> Breaks(s, a) || (Activity(s.status) == ERROR && !ClearsError(s, a))
    ensures ErrorMeansIdle(Reduce(s, a))
  {
    StatusAfter(s, a);
    TouchedBits(s.status, TouchOf(s, a), Reduce(s, a).active);
    ActivitiesDiffer();
    FailsMeansBreaks(s, a);
    if TouchOf(s, a).Fails? { FailureEndsTurn(s, a); }
    if TouchOf(s, a).Keeps? { NoTurnStays(s, a); }
  }

  predicate ClearedAt(s: Chat, actions: seq<Action>, k: nat)
    requires k < |actions|
  {
    ClearsError(Run(s, actions[..k]), actions[k])
  }

  predicate BrokenAt(s: Chat, actions: seq<Action>, k: nat)
    requires k < |actions|
  {
    Breaks(Run(s, actions[..k]), actions[k])
  }

  /** No action from the `k`th on clears an error. */
  predicate Uncleared(s: Chat, actions: seq<Action>, k: nat) {
    forall m :: k <= m < |actions| ==> !ClearedAt(s, actions, m)
  }

  /** The turn broke off and nothing has cleared it since. */
  predicate BrokenSince(s: Chat, actions: seq<Action>, k: nat)
    requires k < |actions|
  {
    BrokenAt(s, actions, k) && Uncleared(s, actions, k + 1)
  }

  lemma UnclearedGrows(s: Chat, actions: seq<Action>, n: nat, k: nat)
    requires |actions| == n + 1 && k <= n
    ensures Uncleared(s, actions, k) <==> Uncleared(s, actions[..n], k) && !ClearedAt(s, actions, n)
  {
    var front := actions[..n];
    assert forall m :: 0 <= m < n ==> front[..m] == actions[..m];
    assert forall m :: 0 <= m < n ==> ClearedAt(s, front, m) == ClearedAt(s, actions, m);
  }

  lemma BrokenGrows(s: Chat, actions: seq<Action>, n: nat, k: nat)
    requires |actions| == n + 1 && k < n
    ensures BrokenSince(s, actions, k) <==> BrokenSince(s, actions[..n], k) && !ClearedAt(s, actions, n)
  {
    assert actions[..n][..k] == actions[..k];
    UnclearedGrows(s, actions, n, k + 1);
  }

  /** The active turn broke off at some point, or an error was shown at the start, and nothing has cleared it. */
  predicate ErrorSince(s: Chat, actions: seq<Action>) {
    (Activity(s.status) == ERROR && Uncleared(s, actions, 0)) || exists k :: 0 <= k < |actions| && BrokenSince(s, actions, k)
  }

  lemma ErrorSinceGrows(s: Chat, actions: seq<Action>, n: nat)
    requires |actions| == n + 1
    ensures ErrorSince(s, actions) <==> BrokenAt(s, actions, n) || (ErrorSince(s, actions[..n]) && !ClearedAt(s, actions, n))
  {
    UnclearedGrows(s, actions, n, 0);
    forall k | 0 <= k < n ensures BrokenSince(s, actions, k) <==> BrokenSince(s, actions[..n], k) && !ClearedAt(s, actions, n) {
      BrokenGrows(s, actions, n, k);
    }
    assert BrokenSince(s, actions, n) <==> BrokenAt(s, actions, n);
  }

  /** Over every run, exactly when an error is shown at the end. */
  lemma {:induction false} ErrorOverRunsIff(s: Chat, actions: seq<Action>)
    requires ErrorMeansIdle(s)
    ensures Activity(Run(s, actions).status) == ERROR <==> ErrorSince(s, actions)
    ensures ErrorMeansIdle(Run(s, actions))
    decreases |actions|
  {
    if |actions| > 0 {
      var n := |actions| - 1;
      ErrorOverRunsIff(s, actions[..n]);
      ErrorAfterIff(Run(s, actions[..n]), actions[n]);
      ErrorSinceGrows(s, actions, n);
    }
  }
}
