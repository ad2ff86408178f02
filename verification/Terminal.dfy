/** The steps of the terminal reducer that work on a copy of the content. */
module Terminal {
  import opened Collections
  import opened Utf16
  import opened TerminalSpec

  method AppendData(s: TerminalSpec.Terminal, data: Text) returns (next: TerminalSpec.Terminal)
    ensures next == Reduce(s, Data(data))
    ensures Stream(next.content) == Stream(s.content) + data
  {
    WithDataStreams(s.content, data);
    var content := s.content;
    var n := |content|;
    if n > 0 && content[n - 1].Command? && !content[n - 1].isComplete {
      content := content[n - 1 := content[n - 1].(output := content[n - 1].output + data)];
      assert content == s.content[..n - 1] + [Longer(s.content[n - 1], data)];
    } else if n > 0 && content[n - 1].Unclassified? {
      content := content[n - 1 := Unclassified(content[n - 1].value + data)];
      assert content == s.content[..n - 1] + [Longer(s.content[n - 1], data)];
    } else {
      content := content + [Unclassified(data)];
    }
    next := s.(content := content);
  }

  method FinishCommand(s: TerminalSpec.Terminal, commandId: string, exitCode: Option<int>, durationMs: Option<int>)
    returns (next: TerminalSpec.Terminal)
    ensures next == Reduce(s, CommandFinished(commandId, exitCode, durationMs))
    ensures Stream(next.content) == Stream(s.content)
  {
    FinishStreams(s.content, commandId, exitCode, durationMs);
    var content := MarkFinished(s.content, commandId, exitCode, durationMs);
    next := s.(content := content);
  }

  method MarkFinished(parts: seq<Part>, commandId: string, exitCode: Option<int>, durationMs: Option<int>) returns (content: seq<Part>)
    ensures content == FinishAll(parts, commandId, exitCode, durationMs)
  {
    content := [];
    for i := 0 to |parts|
      invariant content == FinishAll(parts[..i], commandId, exitCode, durationMs)
    {
      assert parts[..i + 1][..i] == parts[..i];
      content := content + [Finish(parts[i], commandId, exitCode, durationMs)];
    }
    assert parts[..|parts|] == parts;
  }
}
