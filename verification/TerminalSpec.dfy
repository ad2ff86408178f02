/** A terminal's content: typed parts from which the raw output stream can be read back. */
module TerminalSpec {
  import opened Collections
  import opened Utf16

  datatype Part =
    | Unclassified(value: Text)
    | Command(commandId: string, commandLine: string, output: Text, timestamp: int, isComplete: bool,
              exitCode: Option<int>, durationMs: Option<int>)

  datatype Lifecycle = Running | Exited(exitCode: Option<int>)

  /** `claim` is an opaque token. */
  datatype Terminal = Terminal(
    title: string, cwd: string, cols: int, rows: int, content: seq<Part>, lifecycle: Lifecycle, claim: int,
    supportsCommandDetection: bool)

  datatype Action =
    | Data(data: Text)
    | Input
    | Resized(cols: int, rows: int)
    | Claimed(claim: int)
    | TitleChanged(title: string)
    | CwdChanged(cwd: string)
    | ProcessExited(exitCode: Option<int>)
    | Cleared
    | CommandDetectionAvailable
    | CommandExecuted(commandId: string, commandLine: string, timestamp: int)
    | CommandFinished(commandId: string, exitCode: Option<int>, durationMs: Option<int>)
    | Unknown

  /** Output goes to the command that is running, else to the loose text at the end. */
  function WithData(content: seq<Part>, data: Text): seq<Part> {
    if |content| == 0 then [Unclassified(data)]
    else
      var front, tail := content[..|content| - 1], content[|content| - 1];
      if tail.Unclassified? || !tail.isComplete then front + [Longer(tail, data)] else content + [Unclassified(data)]
  }

  function Longer(p: Part, data: Text): Part {
    if p.Command? then p.(output := p.output + data) else Unclassified(p.value + data)
  }

  function Finish(p: Part, commandId: string, exitCode: Option<int>, durationMs: Option<int>): Part {
    if p.Command? && p.commandId == commandId then p.(isComplete := true, exitCode := exitCode, durationMs := durationMs) else p
  }

  /** Every command of that name is finished. */
  function FinishAll(content: seq<Part>, commandId: string, exitCode: Option<int>, durationMs: Option<int>): (r: seq<Part>)
    ensures |r| == |content|
  {
    if |content| == 0 then []
    else
      var n := |content| - 1;
      FinishAll(content[..n], commandId, exitCode, durationMs) + [Finish(content[n], commandId, exitCode, durationMs)]
  }

  function Reduce(s: Terminal, a: Action): Terminal {
    match a
    case Data(data) => s.(content := WithData(s.content, data))
    case Input => s
    case Resized(cols, rows) => s.(cols := cols, rows := rows)
    case Claimed(claim) => s.(claim := claim)
    case TitleChanged(title) => s.(title := title)
    case CwdChanged(cwd) => s.(cwd := cwd)
    case ProcessExited(exitCode) => s.(lifecycle := Exited(exitCode))
    case Cleared => s.(content := [])
    case CommandDetectionAvailable => s.(supportsCommandDetection := true)
    case CommandExecuted(commandId, commandLine, timestamp) =>
      s.(content := s.content + [Command(commandId, commandLine, [], timestamp, false, None, None)], supportsCommandDetection := true)
    case CommandFinished(commandId, exitCode, durationMs) =>
      s.(content := FinishAll(s.content, commandId, exitCode, durationMs))
    case Unknown => s
  }

  function Run(s: Terminal, actions: seq<Action>): Terminal {
    if |actions| == 0 then s else Reduce(Run(s, actions[..|actions| - 1]), actions[|actions| - 1])
  }

  // ---------- what the content stands for ----------

  function TextOf(p: Part): Text {
    match p case Unclassified(value) => value case Command(_, _, output, _, _, _, _) => output
  }

  /** What a reader who only wants the raw stream reads. */
  function Stream(content: seq<Part>): Text {
    if |content| == 0 then [] else Stream(content[..|content| - 1]) + TextOf(content[|content| - 1])
  }

  /** What was written since the last time the terminal was cleared, after `before`. */
  function Written(before: Text, actions: seq<Action>): Text {
    if |actions| == 0 then before else Write(Written(before, actions[..|actions| - 1]), actions[|actions| - 1])
  }

  function Write(before: Text, a: Action): Text {
    match a case Data(data) => before + data case Cleared => [] case _ => before
  }

  /** The same stream has one shape: loose text is never split in two. */
  ghost predicate NoSplitText(content: seq<Part>) {
    forall i :: 0 <= i && i + 1 < |content| ==> !(content[i].Unclassified? && content[i + 1].Unclassified?)
  }

  // ---------- laws ----------

  lemma StreamSnoc(content: seq<Part>, p: Part)
    ensures Stream(content + [p]) == Stream(content) + TextOf(p)
  {
    assert (content + [p])[..|content|] == content;
  }

  lemma TextJoins(a: Text, b: Text, c: Text)
    ensures a + (b + c) == (a + b) + c
  {
  }

  /** The last part takes more text. */
  lemma TailGrows(front: seq<Part>, tail: Part, longer: Part, data: Text)
    requires TextOf(longer) == TextOf(tail) + data
    ensures Stream(front + [longer]) == Stream(front + [tail]) + data
  {
    StreamSnoc(front, tail);
    StreamSnoc(front, longer);
    TextJoins(Stream(front), TextOf(tail), data);
  }

  lemma WithDataStreams(content: seq<Part>, data: Text)
    ensures Stream(WithData(content, data)) == Stream(content) + data
  {
    if |content| == 0 || (content[|content| - 1].Command? && content[|content| - 1].isComplete) {
      StreamSnoc(content, Unclassified(data));
      assert WithData(content, data) == content + [Unclassified(data)];
    } else {
      var front, tail := content[..|content| - 1], content[|content| - 1];
      assert content == front + [tail];
      TailGrows(front, tail, Longer(tail, data), data);
    }
  }

  lemma {:induction false} SameTextsSameStream(a: seq<Part>, b: seq<Part>)
    requires |a| == |b| && forall i :: 0 <= i < |a| ==> TextOf(a[i]) == TextOf(b[i])
    ensures Stream(a) == Stream(b)
    decreases |a|
  {
    if |a| > 0 { SameTextsSameStream(a[..|a| - 1], b[..|b| - 1]); }
  }

  lemma {:induction false} FinishAllAt(content: seq<Part>, commandId: string, exitCode: Option<int>, durationMs: Option<int>)
    ensures var r := FinishAll(content, commandId, exitCode, durationMs);
      forall i :: 0 <= i < |content| ==> r[i] == Finish(content[i], commandId, exitCode, durationMs)
    decreases |content|
  {
    if |content| > 0 { FinishAllAt(content[..|content| - 1], commandId, exitCode, durationMs); }
  }

  lemma FinishStreams(content: seq<Part>, commandId: string, exitCode: Option<int>, durationMs: Option<int>)
    ensures Stream(FinishAll(content, commandId, exitCode, durationMs)) == Stream(content)
  {
    FinishAllAt(content, commandId, exitCode, durationMs);
    SameTextsSameStream(FinishAll(content, commandId, exitCode, durationMs), content);
  }

  lemma EmptyPartStreams(content: seq<Part>, p: Part)
    requires TextOf(p) == []
    ensures Stream(content + [p]) == Stream(content)
  {
    StreamSnoc(content, p);
    assert Stream(content) + [] == Stream(content);
  }

  lemma StepStreams(s: Terminal, a: Action)
    ensures Stream(Reduce(s, a).content) == Write(Stream(s.content), a)
  {
    match a {
      case Data(data) => WithDataStreams(s.content, data);
      case CommandExecuted(id, line, ts) => EmptyPartStreams(s.content, Command(id, line, [], ts, false, None, None));
      case CommandFinished(id, code, ms) => FinishStreams(s.content, id, code, ms);
      case _ =>
    }
  }

  /** Reading the content gives back exactly what was written: over every run, the initial content (or
      nothing, after a clear) followed by every chunk of data since, in order. */
  lemma {:induction false} ContentIsTheStream(s: Terminal, actions: seq<Action>)
    ensures Stream(Run(s, actions).content) == Written(Stream(s.content), actions)
    decreases |actions|
  {
    if |actions| > 0 {
      ContentIsTheStream(s, actions[..|actions| - 1]);
      StepStreams(Run(s, actions[..|actions| - 1]), actions[|actions| - 1]);
    }
  }

  lemma {:induction false} TextIsNeverSplit(s: Terminal, actions: seq<Action>)
    requires NoSplitText(s.content)
    ensures NoSplitText(Run(s, actions).content)
    decreases |actions|
  {
    if |actions| > 0 {
      TextIsNeverSplit(s, actions[..|actions| - 1]);
      StepNeverSplits(Run(s, actions[..|actions| - 1]), actions[|actions| - 1]);
    }
  }

  lemma StepNeverSplits(s: Terminal, a: Action)
    requires NoSplitText(s.content)
    ensures NoSplitText(Reduce(s, a).content)
  {
    if a.CommandFinished? { FinishAllAt(s.content, a.commandId, a.exitCode, a.durationMs); }
  }

  /** Parts are only ever appended to: an action that does not clear keeps every part in place, adds at most
      one, lengthens at most the last one, and never touches the output of a finished command. */
  lemma ContentOnlyGrows(s: Terminal, a: Action)
    requires !a.Cleared?
    ensures
      var content := Reduce(s, a).content;
      && |s.content| <= |content| <= |s.content| + 1
      && (forall i :: 0 <= i < |s.content| ==> Continues(s.content[i], content[i]))
      && (forall i :: 0 <= i < |s.content| - 1 ==> TextOf(content[i]) == TextOf(s.content[i]))
  {
    if a.CommandFinished? { FinishAllAt(s.content, a.commandId, a.exitCode, a.durationMs); }
  }

  /** The same part later: same command, at least as much text, and once complete the same text. */
  predicate Continues(p: Part, q: Part) {
    && TextOf(p) <= TextOf(q)
    && (p.Unclassified? <==> q.Unclassified?)
    && (p.Command? ==> p.commandId == q.commandId && p.commandLine == q.commandLine && p.timestamp == q.timestamp)
    && (p.Command? && p.isComplete ==> q.isComplete && q.output == p.output)
  }

  /** Over a whole run without a clear, every part is still where it was, continued; what finished stays as it was. */
  lemma {:induction false} PartsContinue(s: Terminal, actions: seq<Action>, i: nat)
    requires i < |s.content| && forall k :: 0 <= k < |actions| ==> !actions[k].Cleared?
    ensures i < |Run(s, actions).content| && Continues(s.content[i], Run(s, actions).content[i])
    decreases |actions|
  {
    if |actions| > 0 {
      var n := |actions| - 1;
      PartsContinue(s, actions[..n], i);
      ContentOnlyGrows(Run(s, actions[..n]), actions[n]);
    }
  }
}
