/** What a chat records over whole runs: its turns, its history, its directories and its properties. */
module ChatRecords {
  import opened Collections
  import opened ChatSpec
  import opened ChatStatus

  // ---------- the record of a turn ----------

  ghost predicate NoTurnMoves(actions: seq<Action>) {
    forall k :: 0 <= k < |actions| ==> !MovesTurn(actions[k])
  }

  /** The usage last reported for a turn, or the one before. */
  function LastUsage(before: Option<Data>, actions: seq<Action>, turnId: string): Option<Data> {
    if |actions| == 0 then before
    else
      var n := |actions| - 1;
      if actions[n].Usage? && actions[n].turnId == turnId then Some(actions[n].usage) else LastUsage(before, actions[..n], turnId)
  }

  /** A turn that goes on keeps its id, its start and its message. */
  lemma {:induction false} TurnGoesOn(s: Chat, actions: seq<Action>)
    requires s.active.Some? && NoTurnMoves(actions)
    ensures
      var before, after := s.active.value, Run(s, actions).active;
      && after.Some? && after.value.id == before.id && after.value.startedAt == before.startedAt && after.value.message == before.message
      && after.value.usage == LastUsage(before.usage, actions, before.id)
    decreases |actions|
  {
    if |actions| > 0 {
      var n := |actions| - 1;
      TurnGoesOn(s, actions[..n]);
      TurnStays(Run(s, actions[..n]), actions[n]);
    }
  }

  lemma TurnStays(s: Chat, a: Action)
    requires s.active.Some? && !MovesTurn(a)
    ensures
      var before, after := s.active.value, Reduce(s, a).active;
      && after.Some? && after.value.id == before.id && after.value.startedAt == before.startedAt && after.value.message == before.message
      && after.value.usage == if a.Usage? && a.turnId == before.id then Some(a.usage) else before.usage
  {
  }

  predicate EndsTurn(a: Action, turnId: string) {
    (a.TurnEnds? || a.TurnFails?) && a.turnId == turnId
  }

  /** What an ending action makes of a turn: the state it names, a duration that is never negative, and a failure noted
      after the turn's own parts. */
  predicate RecordsEnd(turn: Turn, partsBefore: nat, a: Action) {
    match a
    case TurnEnds(_, duration, cancelled) =>
      && turn.state == (if cancelled then TurnCancelled else TurnComplete)
      && turn.duration == Some(if duration < 0 then 0 else duration) && |turn.parts| == partsBefore
    case TurnFails(_, duration, error, resumable) =>
      && turn.state == TurnError && turn.duration == Some(if duration < 0 then 0 else duration)
      && |turn.parts| == partsBefore + 1 && turn.parts[partsBefore] == Failure(error, resumable)
    case _ => false
  }

  /** A turn from start to end, whatever happens in between: the history gains its record at the end, and the chat
      was last modified when it ended. */
  lemma TurnIsRecorded(s: Chat, start: Action, during: seq<Action>, end: Action)
    requires start.TurnStarted? && NoTurnMoves(during) && EndsTurn(end, start.turnId)
    ensures
      var running := Run(Reduce(s, start), during);
      var ended := Reduce(running, end);
      && running.active.Some? && ended.active.None?
      && |ended.turns| == |running.turns| + 1 && ended.turns[..|running.turns|] == running.turns
      && var turn := ended.turns[|running.turns|];
      && turn.id == start.turnId && turn.message == start.message && turn.startedAt == Some(start.startedAt)
      && turn.usage == LastUsage(None, during, start.turnId)
      && RecordsEnd(turn, |running.active.value.parts|, end)
      && ended.modifiedAt == start.startedAt + turn.duration.value
  {
    TurnGoesOn(Reduce(s, start), during);
    EndIsRecorded(Run(Reduce(s, start), during), end);
  }

  lemma EndIsRecorded(s: Chat, end: Action)
    requires s.active.Some? && EndsTurn(end, s.active.value.id)
    ensures
      var ended, active := Reduce(s, end), s.active.value;
      && ended.active.None? && |ended.turns| == |s.turns| + 1 && ended.turns[..|s.turns|] == s.turns
      && var turn := ended.turns[|s.turns|];
      && turn.id == active.id && turn.message == active.message && turn.startedAt == Some(active.startedAt) && turn.usage == active.usage
      && RecordsEnd(turn, |active.parts|, end)
      && ended.modifiedAt == active.startedAt + turn.duration.value
  {
  }

  /** A turn that was started again after a failure counts from its first start, or from the last change if that is
      not known. */
  lemma ResumedTurnIsRecorded(s: Chat, turnId: string, during: seq<Action>, end: Action)
    requires CanResume(s, turnId) && NoTurnMoves(during) && EndsTurn(end, turnId)
    ensures
      var running := Run(Reduce(s, TurnResumes(turnId)), during);
      var ended, failed := Reduce(running, end), s.turns[|s.turns| - 1];
      && running.active.Some? && |ended.turns| == |running.turns| + 1
      && var turn := ended.turns[|running.turns|];
      && turn.id == turnId && turn.message == failed.message
      && turn.startedAt == Some(if failed.startedAt.Some? then failed.startedAt.value else s.modifiedAt)
      && turn.usage == LastUsage(failed.usage, during, turnId)
      && RecordsEnd(turn, |running.active.value.parts|, end)
  {
    TurnGoesOn(Reduce(s, TurnResumes(turnId)), during);
    EndIsRecorded(Run(Reduce(s, TurnResumes(turnId)), during), end);
  }

  // ---------- the history that is loaded or cut off ----------

  predicate HasTurn(turns: seq<Turn>, id: string) {
    exists k :: 0 <= k < |turns| && turns[k].id == id
  }

  lemma {:induction false} TurnIsFound(turns: seq<Turn>, id: string)
    ensures
      var i := IndexOfTurn(turns, id);
      && (i < |turns| <==> HasTurn(turns, id))
      && (i < |turns| ==> turns[i].id == id)
      && !HasTurn(turns[..i], id)
    decreases |turns|
  {
    if |turns| > 0 && turns[0].id != id {
      TurnIsFound(turns[1..], id);
      var i := IndexOfTurn(turns[1..], id);
      assert forall k :: 0 <= k < i ==> turns[..i + 1][k + 1] == turns[1..][..i][k];
      if HasTurn(turns, id) {
        var k :| 0 <= k < |turns| && turns[k].id == id;
        assert turns[1..][k - 1].id == id;
      }
    }
  }

  /** Cutting off after a turn keeps everything up to the first of that id; an unknown id changes nothing. */
  lemma TruncationKeeps(s: Chat, id: string)
    ensures
      var t := Reduce(s, Truncated(Some(id)));
      if HasTurn(s.turns, id) then
        && t.active.None? && 0 < |t.turns| <= |s.turns| && t.turns == s.turns[..|t.turns|]
        && t.turns[|t.turns| - 1].id == id && !HasTurn(t.turns[..|t.turns| - 1], id)
      else t == s
  {
    TurnIsFound(s.turns, id);
  }

  lemma {:induction false} OlderAre(loaded: seq<Turn>, turns: seq<Turn>, t: Turn)
    ensures t in Older(loaded, turns) <==> t in loaded && !HasTurn(turns, t.id)
    decreases |loaded|
  {
    if |loaded| > 0 {
      TurnIsFound(turns, loaded[0].id);
      OlderAre(loaded[1..], turns, t);
      assert loaded == [loaded[0]] + loaded[1..];
    }
  }

  lemma {:induction false} AllOlder(loaded: seq<Turn>, turns: seq<Turn>)
    requires NoneKnown(loaded, turns)
    ensures Older(loaded, turns) == loaded
    decreases |loaded|
  {
    if |loaded| > 0 {
      TurnIsFound(turns, loaded[0].id);
      AllOlder(loaded[1..], turns);
    }
  }

  lemma {:induction false} NoneOlder(loaded: seq<Turn>, turns: seq<Turn>)
    requires forall k :: 0 <= k < |loaded| ==> HasTurn(turns, loaded[k].id)
    ensures Older(loaded, turns) == []
    decreases |loaded|
  {
    if |loaded| > 0 {
      TurnIsFound(turns, loaded[0].id);
      NoneOlder(loaded[1..], turns);
    }
  }

  /** A page cut anywhere goes in as its two halves would. */
  lemma {:induction false} OlderSplits(a: seq<Turn>, b: seq<Turn>, turns: seq<Turn>)
    ensures Older(a + b, turns) == Older(a, turns) + Older(b, turns)
    decreases |a|
  {
    if |a| == 0 {
      assert a + b == b;
    } else {
      assert (a + b)[1..] == a[1..] + b;
      OlderSplits(a[1..], b, turns);
      Regroup(if IndexOfTurn(turns, a[0].id) == |turns| then [a[0]] else [], Older(a[1..], turns), Older(b, turns));
    }
  }

  lemma Regroup(x: seq<Turn>, y: seq<Turn>, z: seq<Turn>)
    ensures x + (y + z) == (x + y) + z
  {
  }

  /** Loading puts in front exactly the turns whose ids the chat does not have, and an unknown page goes in whole and
      in order. */
  lemma LoadingAddsMissing(s: Chat, page: seq<Turn>, cursor: Option<string>, t: Turn)
    ensures
      var older := Older(page, s.turns);
      && Reduce(s, TurnsLoaded(page, cursor)).turns == older + s.turns
      && (t in older <==> t in page && !HasTurn(s.turns, t.id))
      && (NoneKnown(page, s.turns) ==> older == page)
  {
    OlderAre(page, s.turns, t);
    if NoneKnown(page, s.turns) { AllOlder(page, s.turns); }
  }

  ghost predicate NoneKnown(page: seq<Turn>, turns: seq<Turn>) {
    forall k :: 0 <= k < |page| ==> !HasTurn(turns, page[k].id)
  }

  /** Loading the same page again changes nothing. */
  lemma LoadingTwiceIsOnce(s: Chat, page: seq<Turn>, cursor: Option<string>)
    ensures Reduce(Reduce(s, TurnsLoaded(page, cursor)), TurnsLoaded(page, cursor)) == Reduce(s, TurnsLoaded(page, cursor))
  {
    var older := Older(page, s.turns);
    forall k | 0 <= k < |page| ensures HasTurn(older + s.turns, page[k].id) { LoadedIsThere(page[k], page, older, s.turns); }
    NoneOlder(page, older + s.turns);
    assert [] + (older + s.turns) == older + s.turns;
  }

  lemma LoadedIsThere(t: Turn, page: seq<Turn>, older: seq<Turn>, turns: seq<Turn>)
    requires t in page && older == Older(page, turns)
    ensures HasTurn(older + turns, t.id)
  {
    OlderAre(page, turns, t);
    if HasTurn(turns, t.id) {
      var j :| 0 <= j < |turns| && turns[j].id == t.id;
      assert (older + turns)[|older| + j] == turns[j];
    } else {
      var j :| 0 <= j < |older| && older[j] == t;
      assert (older + turns)[j] == t;
    }
  }

  // ---------- working directories ----------

  function Directories(s: Chat): seq<string> {
    if s.workingDirectories.Some? then s.workingDirectories.value else []
  }

  /** How often a directory is listed: setting sees to it that it is, removing takes one off. */
  function Listed(before: nat, actions: seq<Action>, directory: string): nat {
    if |actions| == 0 then before
    else
      var n := |actions| - 1;
      var listed := Listed(before, actions[..n], directory);
      match actions[n]
      case WorkingDirectorySet(d) => if d == directory && listed == 0 then 1 else listed
      case WorkingDirectoryRemoved(d) => if d == directory && listed > 0 then listed - 1 else listed
      case _ => listed
  }

  lemma {:induction false} DirectoriesOverRuns(s: Chat, actions: seq<Action>, directory: string)
    ensures Times(Directories(Run(s, actions)), directory) == Listed(Times(Directories(s), directory), actions, directory)
    decreases |actions|
  {
    if |actions| > 0 {
      var n := |actions| - 1;
      DirectoriesOverRuns(s, actions[..n], directory);
      StepLists(Run(s, actions[..n]), actions[n], directory, Listed(Times(Directories(s), directory), actions[..n], directory));
    }
  }

  /** How often a directory occurs in a list. */
  function Times(list: seq<string>, d: string): (n: nat)
    ensures n > 0 <==> d in list
  {
    if |list| == 0 then 0 else Times(list[1..], d) + (if list[0] == d then 1 else 0)
  }

  lemma StepLists(s: Chat, a: Action, directory: string, listed: nat)
    requires listed == Times(Directories(s), directory)
    ensures Times(Directories(Reduce(s, a)), directory)
         == match a
            case WorkingDirectorySet(d) => if d == directory && listed == 0 then 1 else listed
            case WorkingDirectoryRemoved(d) => if d == directory && listed > 0 then listed - 1 else listed
            case _ => listed
  {
    if a.WorkingDirectoryRemoved? { WithoutTakesOne(Directories(s), a.directory, directory); }
    else if a.WorkingDirectorySet? { OneMoreTime(Directories(s), a.directory, directory); }
    else { DirectoriesUntouched(s, a); }
  }

  lemma {:induction false} OneMoreTime(list: seq<string>, added: string, d: string)
    ensures Times(list + [added], d) == Times(list, d) + (if added == d then 1 else 0)
    decreases |list|
  {
    if |list| > 0 {
      OneMoreTime(list[1..], added, d);
      assert (list + [added])[1..] == list[1..] + [added];
    }
  }

  lemma {:induction false} WithoutTakesOne(list: seq<string>, removed: string, d: string)
    ensures Times(Without(list, removed), d) == if d == removed && d in list then Times(list, d) - 1 else Times(list, d)
    decreases |list|
  {
    if |list| > 0 && list[0] != removed {
      WithoutTakesOne(list[1..], removed, d);
      assert Without(list, removed)[1..] == Without(list[1..], removed);
    }
  }

  lemma DirectoriesUntouched(s: Chat, a: Action)
    requires !a.WorkingDirectorySet? && !a.WorkingDirectoryRemoved?
    ensures Reduce(s, a).workingDirectories == s.workingDirectories
  {
  }

  // ---------- properties ----------

  /** The last value reported in a run, or the one before it. */
  function Latest<T>(actions: seq<Action>, reported: Action -> Option<T>, before: T): T {
    if |actions| == 0 then before
    else
      var n := |actions| - 1;
      match reported(actions[n]) case Some(value) => value case None => Latest(actions[..n], reported, before)
  }

  function ActivityIn(a: Action): Option<Option<string>> {
    if a.ActivityChanged? then Some(a.activity) else None
  }

  function DraftIn(a: Action): Option<Option<Data>> {
    if a.DraftChanged? then Some(a.draft) else None
  }

  /** Loading names the next page; cutting everything off forgets it. */
  function CursorIn(a: Action): Option<Option<string>> {
    if a.TurnsLoaded? then Some(a.turnsNextCursor) else if a.Truncated? && a.lastTurnId.None? then Some(None) else None
  }

  lemma {:induction false} PropertiesAreTheLatest(s: Chat, actions: seq<Action>)
    ensures
      var t := Run(s, actions);
      && t.activity == Latest(actions, ActivityIn, s.activity)
      && t.draft == Latest(actions, DraftIn, s.draft)
      && t.turnsNextCursor == Latest(actions, CursorIn, s.turnsNextCursor)
    decreases |actions|
  {
    if |actions| > 0 {
      var n := |actions| - 1;
      PropertiesAreTheLatest(s, actions[..n]);
      StepReports(Run(s, actions[..n]), actions[n]);
    }
  }

  lemma StepReports(s: Chat, a: Action)
    ensures
      var t := Reduce(s, a);
      && t.activity == (if ActivityIn(a).Some? then ActivityIn(a).value else s.activity)
      && t.draft == (if DraftIn(a).Some? then DraftIn(a).value else s.draft)
      && t.turnsNextCursor == (if CursorIn(a).Some? then CursorIn(a).value else s.turnsNextCursor)
  {
  }
}
