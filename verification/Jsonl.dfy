/** The splitter as the program runs it: seven fields updated in place by index loops. */
module Jsonl {
  import opened Collections
  import opened Utf16
  import opened SplitterSpec
  import Laws = SplitterLaws

  class LineSplitter {
    const cap: nat
    var buf: Text
    var bomConsumed: bool
    var skipping: bool
    var skipBytesAccumulated: nat
    var skipPendingCr: bool
    var finalizedAtEof: bool
    var finalizedPendingCr: bool

    ghost function BodyState(): Body
      reads this
    {
      Body(buf, skipping, skipBytesAccumulated, skipPendingCr)
    }

    ghost function State(): State
      reads this
    {
      SplitterSpec.State(bomConsumed, finalizedAtEof, finalizedPendingCr, BodyState())
    }

    constructor (cap: nat := MAX_BUF_BYTES)
      ensures State() == FRESH && this.cap == cap
    {
      this.cap := cap;
      buf, bomConsumed := [], false;
      skipping, skipBytesAccumulated, skipPendingCr := false, 0, false;
      finalizedAtEof, finalizedPendingCr := false, false;
    }

    /** Tolerant mode: the calls of the oversized-line callback are part of the result. */
    method PushDetailed(chunk: Text) returns (out: Output)
      requires Valid(State())
      modifies this
      ensures Pushed(State(), out) == Push(cap, old(State()), chunk)
    {
      var s, leadingBytes := SwallowTerminator(chunk);
      var bomBytes;
      s, bomBytes := StripMark(s);
      var ended, lines := SplitChunk(s);
      out := Output(Drops(ended), leadingBytes + bomBytes, lines);
    }

    /** The part of a push that concerns line content. */
    method SplitChunk(chunk: Text) returns (ended: Option<Drop>, lines: seq<SplitLine>)
      requires ValidBody(BodyState())
      modifies this`buf, this`skipping, this`skipBytesAccumulated, this`skipPendingCr
      ensures BodyStep(BodyState(), ended, lines) == SplitBody(cap, old(BodyState()), chunk)
    {
      var text;
      ended, text := ResumeSkipped(chunk);
      if skipping {
        return None, [];
      }
      lines := SplitBuffered(text);
    }

    /** The byte order mark that may open the stream. */
    method StripMark(chunk: Text) returns (s: Text, bytes: nat)
      modifies this`bomConsumed
      ensures AfterBom(bomConsumed, s, bytes) == StripBom(old(bomConsumed), chunk)
    {
      s, bytes := chunk, 0;
      if !bomConsumed && |chunk| > 0 {
        if chunk[0] == BOM {
          s, bytes := chunk[1..], 3;
        }
        bomConsumed := true;
      }
    }

    /** The late terminator of a line already emitted at end of file. */
    method SwallowTerminator(chunk: Text) returns (s: Text, leadingBytes: nat)
      requires Valid(State())
      modifies this`finalizedAtEof, this`finalizedPendingCr
      ensures AfterEof(finalizedAtEof, finalizedPendingCr, s, leadingBytes)
           == DropTerminator(old(finalizedAtEof), old(finalizedPendingCr), chunk)
    {
      s, leadingBytes := chunk, 0;
      if finalizedAtEof {
        if |s| == 0 {
          return;
        }
        if finalizedPendingCr {
          finalizedPendingCr := false;
          finalizedAtEof := false;
          if s[0] == LF {
            leadingBytes := 2;
            s := s[1..];
          } else {
            s := [CR] + s;
          }
        } else if |s| > 1 && s[0] == CR && s[1] == LF {
          finalizedAtEof := false;
          leadingBytes := 2;
          s := s[2..];
        } else if s[0] == LF {
          finalizedAtEof := false;
          leadingBytes := 1;
          s := s[1..];
        } else if s == [CR] {
          finalizedPendingCr := true;
          s := [];
        } else {
          finalizedAtEof := false;
        }
      }
    }

    /** Discards what belongs to an oversized line. While it goes on the splitter stays in the skipping
        state; once it ends, `ended` is the callback and `text` what remains of the chunk. */
    method ResumeSkipped(chunk: Text) returns (ended: Option<Drop>, text: Text)
      requires ValidBody(BodyState())
      modifies this`skipping, this`skipBytesAccumulated, this`skipPendingCr
      ensures
        match Resume(old(BodyState()), chunk)
        case Discarding => skipping && BodyState() == Skip(old(skipBytesAccumulated), Pending(old(BodyState())) + chunk)
        case Continue(e, t) => !skipping && BodyState() == Body(buf, false, 0, false) && ended == e && buf + text == t
    {
      if !skipping {
        return None, chunk;
      }
      ended, text := Discard(chunk);
      assert buf + text == text;
    }

    method Discard(chunk: Text) returns (ended: Option<Drop>, text: Text)
      requires ValidBody(BodyState()) && skipping
      modifies this`skipping, this`skipBytesAccumulated, this`skipPendingCr
      ensures Discards(old(BodyState()), chunk, BodyState(), ended, text)
    {
      if |chunk| == 0 {
        ResumeNothing(BodyState(), chunk, None);
        return None, chunk;
      }
      if skipPendingCr && chunk[0] == LF {
        PendingThenLf(BodyState(), chunk);
        ended, text := Some(Drop(skipBytesAccumulated, 2)), chunk[1..];
        skipBytesAccumulated, skipping, skipPendingCr := 0, false, false;
        return;
      }
      ended, text := DiscardUpToLf(skipBytesAccumulated + (if skipPendingCr then 1 else 0), chunk);
      DiscardedUpToLf(old(BodyState()), Pending(old(BodyState())), chunk, ended, text);
    }

    /** Discards up to the terminator; a CR held from before is already in `counted`. */
    method DiscardUpToLf(counted: nat, chunk: Text) returns (ended: Option<Drop>, text: Text)
      requires |chunk| > 0 && skipping
      modifies this`skipping, this`skipBytesAccumulated, this`skipPendingCr
      ensures if HasLf(chunk)
              then !skipping && skipBytesAccumulated == 0 && !skipPendingCr
                   && ended == Some(DropOf(counted, LineOf(chunk[..IndexOfLf(chunk)])))
                   && text == chunk[IndexOfLf(chunk) + 1..]
              else skipping && skipBytesAccumulated == counted + ByteCount(Counted(chunk)) && skipPendingCr == EndsWithCr(chunk)
    {
      ended, text := None, [];
      var nlIdx := FindLf(chunk);
      if nlIdx == |chunk| {
        skipPendingCr := chunk[|chunk| - 1] == CR;
        var bytes := Utf8ByteLength(if skipPendingCr then chunk[..|chunk| - 1] else chunk);
        skipBytesAccumulated := counted + bytes;
        return;
      }
      var end := nlIdx;
      var terminatorBytes := if end > 0 && chunk[end - 1] == CR then 2 else 1;
      if terminatorBytes == 2 {
        end := end - 1;
      }
      var bytes := Utf8ByteLength(chunk[..end]);
      assert chunk[..nlIdx][..end] == chunk[..end];
      ended := Some(Drop(counted + bytes, terminatorBytes));
      skipBytesAccumulated, skipping, skipPendingCr := 0, false, false;
      text := chunk[nlIdx + 1..];
    }

    method FindLf(s: Text) returns (i: nat)
      ensures i == IndexOfLf(s)
    {
      i := 0;
      while i < |s| && s[i] != LF
        invariant i <= |s|
        invariant i + IndexOfLf(s[i..]) == IndexOfLf(s)
      {
        assert s[i..][1..] == s[i + 1..];
        i := i + 1;
      }
    }

    /** Splits the buffer continued by `text`, and keeps the tail or starts discarding it. */
    method SplitBuffered(text: Text) returns (lines: seq<SplitLine>)
      requires !skipping && skipBytesAccumulated == 0 && !skipPendingCr
      modifies this`buf, this`skipping, this`skipBytesAccumulated, this`skipPendingCr
      ensures lines == Lines(old(buf) + text)
      ensures BodyState() == Keep(cap, Tail(old(buf) + text))
    {
      var s := buf + text;
      var start: nat;
      lines, start := ScanLines(s);
      KeepTail(s[start..]);
    }

    /** The index loop: one pass over the code units, cutting a line at every LF. */
    static method ScanLines(s: Text) returns (lines: seq<SplitLine>, start: nat)
      ensures lines == Lines(s)
      ensures start <= |s| && s[start..] == Tail(s)
    {
      lines, start := [], 0;
      var i := 0;
      ScanStart(s);
      while i < |s|
        invariant start <= i <= |s| && Scanned(s, lines, start, i)
      {
        ScanStep(s, lines, start, i);
        if s[i] == LF {
          var line := CutLine(s, start, i);
          lines := lines + [line];
          start := i + 1;
        }
        i := i + 1;
      }
      ScanEnd(s, lines, start);
    }

    static method CutLine(s: Text, start: nat, i: nat) returns (line: SplitLine)
      requires start <= i < |s|
      ensures line == LineAt(s, start, i)
    {
      var end := i;
      var terminatorBytes := if end > start && s[end - 1] == CR then 2 else 1;
      if terminatorBytes == 2 {
        end := end - 1;
      }
      var byteLength := Utf8ByteLength(s[start..end]);
      line := SplitLine(s[start..end], byteLength, terminatorBytes);
    }

    /** Buffers the unterminated tail, or starts discarding it when it is longer than the cap. */
    method KeepTail(tail: Text)
      requires !skipping && skipBytesAccumulated == 0 && !skipPendingCr
      modifies this`buf, this`skipping, this`skipBytesAccumulated, this`skipPendingCr
      ensures BodyState() == Keep(cap, tail)
    {
      if |tail| > cap {
        buf := [];
        skipping := true;
        skipPendingCr := tail[|tail| - 1] == CR;
        skipBytesAccumulated := Utf8ByteLength(if skipPendingCr then tail[..|tail| - 1] else tail);
      } else {
        buf := tail;
      }
    }

    method Reset()
      modifies this
      ensures State() == FRESH
    {
      buf, bomConsumed := [], false;
      skipping, skipBytesAccumulated, skipPendingCr := false, 0, false;
      finalizedAtEof, finalizedPendingCr := false, false;
    }

    method EndOfInput() returns (drops: seq<Drop>)
      requires Valid(State())
      modifies this
      ensures State() == SplitterSpec.EndOfInput(old(State())).0
      ensures drops == SplitterSpec.EndOfInput(old(State())).1
    {
      drops := [];
      if !skipping {
        return;
      }
      var dropped := skipBytesAccumulated + (if skipPendingCr then 1 else 0);
      skipping, skipBytesAccumulated, skipPendingCr := false, 0, false;
      if dropped > 0 {
        drops := [Drop(dropped, 0)];
      }
    }

    method Checkpoint() returns (dropped: nat)
      modifies this
      ensures (State(), dropped) == SplitterSpec.Checkpoint(old(State()))
    {
      if !skipping {
        return 0;
      }
      dropped := skipBytesAccumulated;
      skipBytesAccumulated := 0;
    }

    method FinalizeIf(accept: Text -> bool) returns (lines: seq<SplitLine>)
      modifies this
      ensures (State(), lines) == SplitterSpec.FinalizeIf(old(State()), accept)
    {
      if |buf| == 0 || !accept(buf) {
        return [];
      }
      var text := buf;
      buf := [];
      finalizedAtEof := true;
      var byteLength := Utf8ByteLength(text);
      lines := [SplitLine(text, byteLength, 0)];
    }
  }

  // ---------- the scan ----------

  /** `lines` are the lines of `s` up to `start`, and there is no LF in `s[start..i]`. */
  ghost predicate Scanned(s: Text, lines: seq<SplitLine>, start: nat, i: nat)
    requires start <= i <= |s|
  {
    && IndexOfLf(s[start..]) >= i - start
    && lines + Lines(s[start..]) == Lines(s)
    && Tail(s[start..]) == Tail(s)
  }

  lemma ScanStart(s: Text)
    ensures Scanned(s, [], 0, 0)
  {
    assert s[0..] == s && [] + Lines(s) == Lines(s);
  }

  lemma ScanEnd(s: Text, lines: seq<SplitLine>, start: nat)
    requires start <= |s| && Scanned(s, lines, start, |s|)
    ensures lines == Lines(s) && s[start..] == Tail(s)
  {
    assert lines + [] == lines;
  }

  lemma ScanStep(s: Text, lines: seq<SplitLine>, start: nat, i: nat)
    requires start <= i < |s| && Scanned(s, lines, start, i)
    ensures s[i] != LF ==> Scanned(s, lines, start, i + 1)
    ensures s[i] == LF ==> Scanned(s, lines + [LineAt(s, start, i)], i + 1, i + 1)
  {
    if s[i] == LF { ScanLf(s, s[start..], lines, start, i); } else { ScanOther(s, s[start..], start, i); }
  }

  lemma ScanOther(s: Text, rest: Text, start: nat, i: nat)
    requires start <= i < |s| && rest == s[start..] && IndexOfLf(rest) >= i - start && s[i] != LF
    ensures IndexOfLf(rest) >= i + 1 - start
  {
    assert rest[i - start] == s[i];
  }

  lemma ScanLf(s: Text, rest: Text, lines: seq<SplitLine>, start: nat, i: nat)
    requires start <= i < |s| && rest == s[start..] && IndexOfLf(rest) >= i - start && s[i] == LF
    ensures IndexOfLf(rest) == i - start
    ensures lines + Lines(rest) == (lines + [LineAt(s, start, i)]) + Lines(s[i + 1..])
    ensures Tail(rest) == Tail(s[i + 1..])
  {
    Laws.IndexOfLfIsFirst(rest);
    assert rest[i - start] == s[i];
    LineAtIsLineOf(s, start, i);
    assert rest[..i - start] == s[start..i] && rest[i - start + 1..] == s[i + 1..];
    Regroup(lines, LineAt(s, start, i), Lines(s[i + 1..]));
  }

  /** The line the loop cuts out of `s[start..i]`. */
  function LineAt(s: Text, start: nat, i: nat): SplitLine
    requires start <= i < |s|
  {
    var end := if i > start && s[i - 1] == CR then i - 1 else i;
    SplitLine(s[start..end], ByteCount(s[start..end]), if end < i then 2 else 1)
  }

  lemma LineAtIsLineOf(s: Text, start: nat, i: nat)
    requires start <= i < |s|
    ensures LineAt(s, start, i) == LineOf(s[start..i])
  {
    var u := s[start..i];
    if i > start {
      assert u[|u| - 1] == s[i - 1];
      assert DropLast(u) == s[start..i - 1];
    }
  }

  lemma Regroup(lines: seq<SplitLine>, line: SplitLine, rest: seq<SplitLine>)
    ensures lines + ([line] + rest) == (lines + [line]) + rest
  {
  }

  // ---------- counting on after a pending CR ----------

  /** The body after a chunk of a line being discarded, with the report and the rest of the chunk. */
  ghost predicate Discards(b: Body, s: Text, after: Body, ended: Option<Drop>, text: Text) {
    match Resume(b, s)
    case Discarding => after == Skip(b.skipBytes, Pending(b) + s)
    case Continue(e, t) => after == Body(b.buf, false, 0, false) && ended == e && text == t
  }

  lemma DiscardedUpToLf(b: Body, p: Text, s: Text, ended: Option<Drop>, text: Text)
    requires ValidBody(b) && b.skipping && p == Pending(b) && |s| > 0 && (b.skipPendingCr ==> s[0] != LF)
    requires HasLf(s) ==> ended == Some(DropOf(b.skipBytes + |p|, LineOf(s[..IndexOfLf(s)]))) && text == s[IndexOfLf(s) + 1..]
    ensures
      var after := if HasLf(s) then Body(b.buf, false, 0, false) else Body([], true, b.skipBytes + |p| + ByteCount(Counted(s)), EndsWithCr(s));
      Discards(b, s, after, ended, text)
  {
    if HasLf(s) { LineAfterPending(b, p, s); } else { NoLineAfterPending(b, p, s); }
  }

  /** Nothing ends: what the code counts for `s` seen from a body that may hold a CR. */
  lemma NoLineAfterPending(b: Body, p: Text, s: Text)
    requires b.skipping && p == Pending(b) && |s| > 0 && !HasLf(s)
    ensures Resume(b, s).Discarding?
    ensures Skip(b.skipBytes, p + s) == Body([], true, b.skipBytes + |p| + ByteCount(Counted(s)), EndsWithCr(s))
  {
    Laws.IndexOfLfConcat(p, s);
    Laws.CountedConcat(p, s);
    assert ByteCount([CR]) == 1;
  }

  lemma LineAfterPending(b: Body, p: Text, s: Text)
    requires b.skipping && p == Pending(b) && HasLf(s) && (b.skipPendingCr ==> s[0] != LF)
    ensures
      var r := Resume(b, s);
      && r.Continue?
      && r.ended == Some(DropOf(b.skipBytes + |p|, LineOf(s[..IndexOfLf(s)])))
      && r.text == s[IndexOfLf(s) + 1..]
  {
    assert p != [] ==> IndexOfLf(s) > 0;
    CutThere(b, p, s);
    LineOfPending(b.skipBytes, p, s[..IndexOfLf(s)]);
  }

  lemma LineOfPending(bytes: nat, p: Text, x: Text)
    requires |p| == 0 || (p == [CR] && |x| > 0)
    ensures DropOf(bytes, LineOf(p + x)) == DropOf(bytes + |p|, LineOf(x))
  {
    assert ByteCount(p) == |p|;
    Laws.LineOfSplit(p, x);
  }

  lemma CutThere(b: Body, p: Text, s: Text)
    requires b.skipping && p == Pending(b) && HasLf(s) && !HasLf(p)
    ensures
      var r := Resume(b, s);
      && r.Continue?
      && r.ended == Some(DropOf(b.skipBytes, LineOf(p + s[..IndexOfLf(s)])))
      && r.text == s[IndexOfLf(s) + 1..]
  {
    Laws.CutAtLf(p, s);
    Laws.ResumeFields(b, s, p + s);
  }

  lemma PendingThenLf(b: Body, s: Text)
    requires b.skipping && b.skipPendingCr && |s| > 0 && s[0] == LF
    ensures Discards(b, s, Body(b.buf, false, 0, false), Some(Drop(b.skipBytes, 2)), s[1..])
  {
    CutThere(b, [CR], s);
    assert s[..0] == [] && [CR] + s[..0] == [CR];
    assert Counted([CR]) == [];
  }

  lemma ResumeNothing(b: Body, s: Text, ended: Option<Drop>)
    requires ValidBody(b) && b.skipping && |s| == 0
    ensures Discards(b, s, b, ended, s)
  {
    assert Pending(b) + s == Pending(b);
    assert !HasLf(Pending(b)) && Counted(Pending(b)) == [];
  }
}
