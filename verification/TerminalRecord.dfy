/** What a terminal records of its commands, its loose text and its properties, over whole runs. */
module TerminalRecord {
  import opened Collections
  import opened Utf16
  import opened TerminalSpec

  // ---------- commands ----------

  /** Nothing in a run clears the terminal. */
  ghost predicate NoClear(actions: seq<Action>) {
    forall k :: 0 <= k < |actions| ==> !actions[k].Cleared?
  }

  /** Nothing in a run ends the command or starts another. */
  ghost predicate Undisturbed(actions: seq<Action>, commandId: string) {
    forall k :: 0 <= k < |actions| ==> !actions[k].CommandExecuted? && !Finishes(actions[k], commandId)
  }

  predicate Finishes(a: Action, commandId: string) {
    a.CommandFinished? && a.commandId == commandId
  }

  ghost predicate NotFinishedAgain(actions: seq<Action>, commandId: string) {
    forall k :: 0 <= k < |actions| ==> !Finishes(actions[k], commandId)
  }

  /** The last report that a command ended. */
  function LastReport(actions: seq<Action>, commandId: string): Option<Action> {
    if |actions| == 0 then None
    else
      var n := |actions| - 1;
      if Finishes(actions[n], commandId) then Some(actions[n]) else LastReport(actions[..n], commandId)
  }

  /** The command as it was, but for how it ended: that is what the last report says, if there was one. */
  ghost predicate EndsAsReported(p: Part, q: Part, report: Option<Action>) {
    && p.Command? && q.Command? && q.commandId == p.commandId
    && match report
       case Some(CommandFinished(_, exitCode, durationMs)) => q.isComplete && q.exitCode == exitCode && q.durationMs == durationMs
       case _ => q.isComplete == p.isComplete && q.exitCode == p.exitCode && q.durationMs == p.durationMs
  }

  /** Over every run without a clear, a command is complete exactly when it was or when its end was reported, with
      the exit code and the duration of the last report for its id. */
  lemma {:induction false} EndIsAsReported(s: Terminal, actions: seq<Action>, i: nat)
    requires i < |s.content| && s.content[i].Command? && NoClear(actions)
    ensures i < |Run(s, actions).content|
    ensures EndsAsReported(s.content[i], Run(s, actions).content[i], LastReport(actions, s.content[i].commandId))
    decreases |actions|
  {
    if |actions| > 0 {
      var n := |actions| - 1;
      EndIsAsReported(s, actions[..n], i);
      StepEnds(Run(s, actions[..n]), actions[n], i);
    }
  }

  lemma StepEnds(s: Terminal, a: Action, i: nat)
    requires i < |s.content| && s.content[i].Command? && !a.Cleared?
    ensures i < |Reduce(s, a).content|
    ensures EndsAsReported(s.content[i], Reduce(s, a).content[i], if Finishes(a, s.content[i].commandId) then Some(a) else None)
  {
    if a.CommandFinished? { FinishAllAt(s.content, a.commandId, a.exitCode, a.durationMs); }
  }

  /** What is written while a command runs is its output, and nothing else is added. */
  lemma {:induction false} OutputIsTheCommands(s: Terminal, actions: seq<Action>, p: Part)
    requires |s.content| > 0 && p == s.content[|s.content| - 1] && p.Command? && !p.isComplete
    requires NoClear(actions) && Undisturbed(actions, p.commandId)
    ensures var content := Run(s, actions).content;
      |content| == |s.content| && content[|content| - 1] == p.(output := Written(p.output, actions))
    decreases |actions|
  {
    if |actions| > 0 {
      var n := |actions| - 1;
      OutputIsTheCommands(s, actions[..n], p);
      StepTakesOutput(Run(s, actions[..n]), actions[n]);
    }
  }

  lemma StepTakesOutput(s: Terminal, a: Action)
    requires |s.content| > 0 && !a.Cleared? && !a.CommandExecuted?
    requires var p := s.content[|s.content| - 1]; p.Command? && !p.isComplete && !Finishes(a, p.commandId)
    ensures
      var content, p := Reduce(s, a).content, s.content[|s.content| - 1];
      |content| == |s.content| && content[|content| - 1] == p.(output := Write(p.output, a))
  {
    if a.CommandFinished? { FinishAllAt(s.content, a.commandId, a.exitCode, a.durationMs); }
  }

  lemma StepTakesText(s: Terminal, a: Action)
    requires |s.content| > 0 && !a.Cleared? && !a.CommandExecuted? && s.content[|s.content| - 1].Unclassified?
    ensures
      var content := Reduce(s, a).content;
      |content| == |s.content| && content[|content| - 1] == Unclassified(Write(s.content[|s.content| - 1].value, a))
  {
    if a.CommandFinished? { FinishAllAt(s.content, a.commandId, a.exitCode, a.durationMs); }
  }

  lemma RunSnoc(s: Terminal, actions: seq<Action>, a: Action)
    ensures Run(s, actions + [a]) == Reduce(Run(s, actions), a)
  {
    assert (actions + [a])[..|actions|] == actions;
  }

  lemma {:induction false} RunSplits(s: Terminal, first: seq<Action>, rest: seq<Action>)
    ensures Run(s, first + rest) == Run(Run(s, first), rest)
    decreases |rest|
  {
    if |rest| == 0 {
      assert first + rest == first;
    } else {
      var most, last := rest[..|rest| - 1], rest[|rest| - 1];
      RunSplits(s, first, most);
      RunSnoc(s, first + most, last);
      RunSnoc(Run(s, first), most, last);
      assert rest == most + [last] && first + rest == (first + most) + [last];
    }
  }

  /** A command from start to end, whatever else happens around it: its place holds the line and time it was started
      with, exactly what was written while it ran, and how it ended; nothing later but a clear or another report of
      its id changes that. */
  lemma CommandIsRecorded(s: Terminal, start: Action, during: seq<Action>, end: Action, after: seq<Action>)
    requires start.CommandExecuted? && Finishes(end, start.commandId)
    requires NoClear(during) && Undisturbed(during, start.commandId)
    requires NoClear(after) && NotFinishedAgain(after, start.commandId)
    ensures
      var content := Run(s, [start] + during + [end] + after).content;
      && |s.content| < |content|
      && content[|s.content|] == Command(start.commandId, start.commandLine, Written([], during), start.timestamp, true,
                                         end.exitCode, end.durationMs)
  {
    var i := |s.content|;
    var running := Run(Reduce(s, start), during);
    var ended := Reduce(running, end);
    OneStep(s, start);
    OutputIsTheCommands(Reduce(s, start), during, Command(start.commandId, start.commandLine, [], start.timestamp, false, None, None));
    FinishAllAt(running.content, end.commandId, end.exitCode, end.durationMs);
    PartsContinue(ended, after, i);
    EndIsAsReported(ended, after, i);
    NoReport(after, start.commandId);
    OneStep(running, end);
    RunSplits(s, [start], during);
    RunSplits(s, [start] + during, [end]);
    RunSplits(s, [start] + during + [end], after);
  }

  lemma OneStep(s: Terminal, a: Action)
    ensures Run(s, [a]) == Reduce(s, a)
  {
    assert [a][..0] == [];
  }

  lemma {:induction false} NoReport(actions: seq<Action>, commandId: string)
    requires NotFinishedAgain(actions, commandId)
    ensures LastReport(actions, commandId) == None
    decreases |actions|
  {
    if |actions| > 0 { NoReport(actions[..|actions| - 1], commandId); }
  }

  // ---------- loose text ----------

  /** No command is running at the end of the content, and no loose text is open. */
  predicate AtRest(content: seq<Part>) {
    |content| > 0 ==> content[|content| - 1].Command? && content[|content| - 1].isComplete
  }

  /** What is written between commands is one piece of loose text, and the parts before it stay. */
  lemma {:induction false} LooseTextIsRecorded(s: Terminal, data: Text, actions: seq<Action>)
    requires AtRest(s.content) && NoClear(actions)
    requires forall k :: 0 <= k < |actions| ==> !actions[k].CommandExecuted?
    ensures
      var content := Run(Reduce(s, Data(data)), actions).content;
      |content| == |s.content| + 1 && content[|s.content|] == Unclassified(Written(data, actions))
    decreases |actions|
  {
    if |actions| > 0 {
      var n := |actions| - 1;
      LooseTextIsRecorded(s, data, actions[..n]);
      StepTakesText(Run(Reduce(s, Data(data)), actions[..n]), actions[n]);
    }
  }

  // ---------- properties ----------

  /** The last value reported in a run, or the one before it. */
  function Latest<T>(actions: seq<Action>, reported: Action -> Option<T>, before: T): T {
    if |actions| == 0 then before
    else
      var n := |actions| - 1;
      match reported(actions[n]) case Some(value) => value case None => Latest(actions[..n], reported, before)
  }

  function SizeIn(a: Action): Option<(int, int)> {
    if a.Resized? then Some((a.cols, a.rows)) else None
  }

  function TitleIn(a: Action): Option<string> {
    if a.TitleChanged? then Some(a.title) else None
  }

  function CwdIn(a: Action): Option<string> {
    if a.CwdChanged? then Some(a.cwd) else None
  }

  function ClaimIn(a: Action): Option<int> {
    if a.Claimed? then Some(a.claim) else None
  }

  function ExitIn(a: Action): Option<Lifecycle> {
    if a.ProcessExited? then Some(Exited(a.exitCode)) else None
  }

  function DetectionIn(a: Action): Option<bool> {
    if a.CommandDetectionAvailable? || a.CommandExecuted? then Some(true) else None
  }

  /** Every property is the one last reported; in particular nothing brings an exited process back. */
  lemma {:induction false} PropertiesAreTheLatest(s: Terminal, actions: seq<Action>)
    ensures
      var t := Run(s, actions);
      && (t.cols, t.rows) == Latest(actions, SizeIn, (s.cols, s.rows))
      && t.title == Latest(actions, TitleIn, s.title)
      && t.cwd == Latest(actions, CwdIn, s.cwd)
      && t.claim == Latest(actions, ClaimIn, s.claim)
      && t.lifecycle == Latest(actions, ExitIn, s.lifecycle)
      && t.supportsCommandDetection == Latest(actions, DetectionIn, s.supportsCommandDetection)
    decreases |actions|
  {
    if |actions| > 0 { PropertiesAreTheLatest(s, actions[..|actions| - 1]); }
  }
}
