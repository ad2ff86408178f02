/** The ingest loop of the application state: closures over a splitter and a byte cursor. */
module IngestLoop {
  import opened Utf16
  import opened SplitterSpec
  import opened IngestSpec
  import Jsonl

  class IngestLoop {
    const splitter: Jsonl.LineSplitter
    var byteOffset: nat
    var records: seq<Record>
    var oversizedWarningActive: bool
    var warnings: nat

    ghost function Cursor(): Cursor
      reads this, splitter
    {
      IngestSpec.Cursor(splitter.State(), byteOffset, records, oversizedWarningActive, warnings)
    }

    constructor (cap: nat)
      ensures Cursor() == START && splitter.cap == cap && fresh(splitter)
    {
      splitter := new Jsonl.LineSplitter(cap);
      byteOffset, records := 0, [];
      oversizedWarningActive, warnings := false, 0;
    }

    method OnOversizedBytes(bytesDropped: nat, terminatorBytes: nat)
      modifies this
      ensures Cursor() == IngestSpec.OnOversizedBytes(old(Cursor()), Drop(bytesDropped, terminatorBytes))
    {
      byteOffset := byteOffset + bytesDropped + terminatorBytes;
      if !oversizedWarningActive {
        oversizedWarningActive := true;
        warnings := warnings + 1;
      }
      if terminatorBytes > 0 {
        oversizedWarningActive := false;
      }
    }

    method IngestLine(line: SplitLine)
      modifies this
      ensures Cursor() == IngestSpec.IngestLine(old(Cursor()), line)
    {
      records := records + [Record(line.text, byteOffset, line.byteLength)];
      byteOffset := byteOffset + line.byteLength + line.terminatorBytes;
    }

    method IngestAll(lines: seq<SplitLine>)
      modifies this
      ensures Cursor() == IngestLines(old(Cursor()), lines)
    {
      var i := 0;
      assert lines[0..] == lines;
      while i < |lines|
        invariant i <= |lines|
        invariant IngestLines(Cursor(), lines[i..]) == IngestLines(old(Cursor()), lines)
      {
        assert lines[i..][1..] == lines[i + 1..];
        IngestLine(lines[i]);
        i := i + 1;
      }
    }

    method OnChunk(chunk: Text)
      requires Valid(splitter.State())
      modifies this, splitter
      ensures Cursor() == IngestSpec.OnChunk(splitter.cap, old(Cursor()), chunk)
    {
      var result := splitter.PushDetailed(chunk);
      ghost var pushed := Pushed(splitter.State(), result);
      RunAccount(result.drops, result.leading);
      assert Cursor() == Account(old(Cursor()), pushed);
      IngestAll(result.lines);
    }

    /** The callbacks run during the push, the leading bytes are added after it. */
    method RunAccount(drops: seq<Drop>, leading: nat)
      modifies this
      ensures
        var dropped := OnDrops(old(Cursor()), drops);
        Cursor() == dropped.(byteOffset := dropped.byteOffset + leading)
    {
      RunCallbacks(drops);
      byteOffset := byteOffset + leading;
    }

    /** The callbacks, in the order in which the splitter makes them. */
    method RunCallbacks(drops: seq<Drop>)
      modifies this
      ensures Cursor() == OnDrops(old(Cursor()), drops)
    {
      var i := 0;
      assert drops[0..] == drops;
      while i < |drops|
        invariant i <= |drops|
        invariant OnDrops(Cursor(), drops[i..]) == OnDrops(old(Cursor()), drops)
      {
        assert drops[i..][1..] == drops[i + 1..];
        OnOversizedBytes(drops[i].bytes, drops[i].terminatorBytes);
        i := i + 1;
      }
    }

    method OnInitialReadComplete(parses: Text -> bool)
      modifies this, splitter
      ensures Cursor() == OnReadComplete(old(Cursor()), parses)
    {
      var oversizedBytes := splitter.Checkpoint();
      if oversizedBytes > 0 {
        OnOversizedBytes(oversizedBytes, 0);
      }
      var lines := splitter.FinalizeIf(parses);
      IngestAll(lines);
    }

    /** Rotation; the banners of the previous file are discarded. */
    method OnReset()
      modifies this, splitter
      ensures Cursor() == START
    {
      splitter.Reset();
      oversizedWarningActive := false;
      byteOffset, records := 0, [];
      warnings := 0;
    }
  }
}
