/** Why every offset is exact: over any run the stream is tiled by what the program reports and what it holds. */
module IngestLaws {
  import opened Collections
  import opened Utf16
  import opened SplitterSpec
  import opened IngestSpec
  import Laws = SplitterLaws

  // ---------- the tiling ----------

  /** The stream as the program accounts for it. */
  datatype Segment = Gap(text: Text, kind: GapKind) | Line(line: SplitLine)

  /** What the program passes over: the byte order mark, the late terminator of a line emitted at end of file,
      a piece of an oversized line. */
  datatype GapKind = Mark | Late | Piece

  function SegmentText(s: Segment): Text {
    match s
    case Gap(text, _) => text
    case Line(line) => line.text + Laws.Terminator(line.terminatorBytes)
  }

  function Join(segments: seq<Segment>): Text {
    if |segments| == 0 then []
    else Join(segments[..|segments| - 1]) + SegmentText(segments[|segments| - 1])
  }

  /** The records of the line segments, each at the number of UTF-8 octets before it. */
  function RecordsOf(segments: seq<Segment>): seq<Record> {
    if |segments| == 0 then []
    else
      var before := segments[..|segments| - 1];
      match segments[|segments| - 1]
      case Gap(_, _) => RecordsOf(before)
      case Line(line) => RecordsOf(before) + [Record(line.text, Utf8Length(Join(before)), Utf8Length(line.text))]
  }

  /** `segments` and `held` tile the stream: nothing missing, nothing twice, and the cursor and every
      record's offset are the exact octet counts. */
  ghost predicate Tiles(stream: Text, c: Cursor, segments: seq<Segment>, held: Text) {
    && stream == Join(segments) + held
    && Paired(Join(segments))
    && c.byteOffset == ByteCount(Join(segments))
    && c.records == RecordsOf(segments)
  }

  lemma JoinSnoc(segments: seq<Segment>, s: Segment)
    ensures Join(segments + [s]) == Join(segments) + SegmentText(s)
    ensures RecordsOf(segments + [s]) == RecordsOf(segments) +
      (match s case Gap(_, _) => [] case Line(line) => [Record(line.text, Utf8Length(Join(segments)), Utf8Length(line.text))])
  {
    assert (segments + [s])[..|segments|] == segments;
  }

  /** Reporting a gap. */
  lemma GapTiles(stream: Text, c: Cursor, c': Cursor, segments: seq<Segment>, gap: Text, kind: GapKind, rest: Text)
    requires Tiles(stream, c, segments, gap + rest)
    requires Paired(gap) && c'.byteOffset == c.byteOffset + ByteCount(gap) && c'.records == c.records
    ensures Tiles(stream, c', WithGap(segments, gap, kind), rest)
  {
    if |gap| == 0 {
      assert gap + rest == rest;
    } else {
      JoinSnoc(segments, Gap(gap, kind));
      PairedConcat(Join(segments), gap);
      ByteCountConcat(Join(segments), gap);
      Laws.Assoc(Join(segments), gap, rest);
      assert RecordsOf(segments) + [] == RecordsOf(segments);
    }
  }

  /** Nothing is passed over when the gap is empty. */
  function WithGap(segments: seq<Segment>, gap: Text, kind: GapKind): seq<Segment> {
    if |gap| == 0 then segments else segments + [Gap(gap, kind)]
  }

  lemma LineTiles(stream: Text, c: Cursor, segments: seq<Segment>, line: SplitLine, rest: Text)
    requires GoodLine(line)
    requires Tiles(stream, c, segments, (line.text + Laws.Terminator(line.terminatorBytes)) + rest)
    ensures Tiles(stream, IngestLine(c, line), segments + [Line(line)], rest)
  {
    var before, text := Join(segments), SegmentText(Line(line));
    JoinSnoc(segments, Line(line));
    LineTextBytes(line);
    PairedConcat(before, text);
    ByteCountConcat(before, text);
    Laws.Assoc(before, text, rest);
    ByteCountIsUtf8(before);
    ByteCountIsUtf8(line.text);
  }

  function AddLines(segments: seq<Segment>, lines: seq<SplitLine>): seq<Segment>
    decreases |lines|
  {
    if |lines| == 0 then segments else AddLines(segments + [Line(lines[0])], lines[1..])
  }

  lemma {:induction false} LinesTile(stream: Text, c: Cursor, segments: seq<Segment>, lines: seq<SplitLine>, rest: Text)
    requires forall l :: l in lines ==> GoodLine(l)
    requires Tiles(stream, c, segments, Laws.Rejoin(lines) + rest)
    ensures Tiles(stream, IngestLines(c, lines), AddLines(segments, lines), rest)
    decreases |lines|
  {
    if |lines| == 0 {
      assert Laws.Rejoin(lines) + rest == rest;
    } else {
      var text := lines[0].text + Laws.Terminator(lines[0].terminatorBytes);
      Laws.Assoc(text, Laws.Rejoin(lines[1..]), rest);
      LineTiles(stream, c, segments, lines[0], Laws.Rejoin(lines[1..]) + rest);
      LinesTile(stream, IngestLine(c, lines[0]), segments + [Line(lines[0])], lines[1..], rest);
    }
  }

  // ---------- which parts of the stream may be passed over ----------

  /** The pieces passed over so far of a line whose end has not come. */
  function OpenLine(segments: seq<Segment>): Text {
    if |segments| == 0 then []
    else
      var last := segments[|segments| - 1];
      if last.Gap? && last.kind.Piece? && !HasLf(last.text) then OpenLine(segments[..|segments| - 1]) + last.text else []
  }

  /** The last thing reported is a line emitted at end of file, without a terminator. */
  predicate AtEnd(segments: seq<Segment>) {
    |segments| > 0 && segments[|segments| - 1].Line? && segments[|segments| - 1].line.terminatorBytes == 0
  }

  /** What may follow `front`: a whole line, without an LF in it, but never inside an open line; the byte order
      mark at the very start; one terminator right after a line that had none; a piece of an oversized line, in
      which an LF stands only at the end, and then all its pieces are longer than the cap. */
  ghost predicate MayFollow(cap: nat, front: seq<Segment>, s: Segment) {
    match s
    case Line(line) => |OpenLine(front)| == 0 && !HasLf(line.text)
    case Gap(text, Mark) => |front| == 0 && text == [BOM]
    case Gap(text, Late) => AtEnd(front) && IsTerminator(text)
    case Gap(text, Piece) =>
      |text| > 0 && (HasLf(text) ==> IndexOfLf(text) == |text| - 1 && |OpenLine(front)| + |text| - 1 > cap)
  }

  ghost predicate Arranged(cap: nat, segments: seq<Segment>) {
    forall i :: 0 <= i < |segments| ==> MayFollow(cap, segments[..i], segments[i])
  }

  /** How far the splitter is: it discards exactly while a line is open, and then that line is over the cap. */
  ghost predicate Stands(cap: nat, segments: seq<Segment>, st: State, held: Text) {
    && !HasLf(held)
    && (if st.body.skipping then |OpenLine(segments)| + |held| > cap else |OpenLine(segments)| == 0)
    && (!st.bomConsumed ==> |segments| == 0)
    && (st.atEof ==> AtEnd(segments))
  }

  lemma ArrangedSnoc(cap: nat, front: seq<Segment>, s: Segment)
    requires Arranged(cap, front) && MayFollow(cap, front, s)
    ensures Arranged(cap, front + [s])
    ensures OpenLine(front + [s]) == if s.Gap? && s.kind.Piece? && !HasLf(s.text) then OpenLine(front) + s.text else []
  {
    var all := front + [s];
    assert all[..|front|] == front;
    forall i | 0 <= i < |all| ensures MayFollow(cap, all[..i], all[i]) {
      if i < |front| { assert all[..i] == front[..i]; }
    }
  }

  lemma {:induction false} ArrangeLines(cap: nat, front: seq<Segment>, lines: seq<SplitLine>)
    requires Arranged(cap, front) && |OpenLine(front)| == 0
    requires forall l :: l in lines ==> GoodLine(l)
    ensures Arranged(cap, AddLines(front, lines)) && |OpenLine(AddLines(front, lines))| == 0
    decreases |lines|
  {
    if |lines| > 0 {
      assert lines[0] in lines;
      ArrangedSnoc(cap, front, Line(lines[0]));
      ArrangeLines(cap, front + [Line(lines[0])], lines[1..]);
    }
  }

  function KindOf(st: State): GapKind {
    if st.body.skipping then Piece else if st.atEof then Late else Mark
  }

  /** The gap of a push may follow what was reported. */
  lemma ArrangeGap(cap: nat, segments: seq<Segment>, st: State, held: Text, chunk: Text, gap: Text, p: Pushed, kept: Text)
    requires Arranged(cap, segments) && Stands(cap, segments, st, held) && GapOk(cap, st, held, chunk, gap, p, kept)
    requires st.atEof ==> !st.body.skipping
    ensures Arranged(cap, WithGap(segments, gap, KindOf(st)))
    ensures (st.body.skipping && |gap| == 0) || |OpenLine(WithGap(segments, gap, KindOf(st)))| == 0
  {
    if |gap| > 0 { ArrangedSnoc(cap, segments, Gap(gap, KindOf(st))); }
  }

  lemma ChunkArranged(cap: nat, segments: seq<Segment>, st: State, held: Text, chunk: Text, gap: Text, p: Pushed, kept: Text)
    requires Arranged(cap, segments) && Stands(cap, segments, st, held) && GapOk(cap, st, held, chunk, gap, p, kept)
    requires st.atEof ==> !st.body.skipping
    requires forall l :: l in p.out.lines ==> GoodLine(l)
    ensures
      var all := AddLines(WithGap(segments, gap, KindOf(st)), p.out.lines);
      Arranged(cap, all) && Stands(cap, all, p.state, kept)
  {
    var front := WithGap(segments, gap, KindOf(st));
    ArrangeGap(cap, segments, st, held, chunk, gap, p, kept);
    if |p.out.lines| > 0 { ArrangeLines(cap, front, p.out.lines); }
  }

  // ---------- steps and runs ----------

  lemma OnDropsOffset(c: Cursor, drops: seq<Drop>)
    ensures OnDrops(c, drops).byteOffset == c.byteOffset + DropBytes(drops)
    ensures OnDrops(c, drops).records == c.records && OnDrops(c, drops).splitter == c.splitter
    decreases |drops|
  {
    if |drops| > 0 { OnDropsOffset(OnOversizedBytes(c, drops[0]), drops[1..]); }
  }

  lemma AccountOffset(c: Cursor, p: Pushed)
    ensures Account(c, p).byteOffset == c.byteOffset + DropBytes(p.out.drops) + p.out.leading
    ensures Account(c, p).records == c.records && Account(c, p).splitter == p.state
  {
    OnDropsOffset(c.(splitter := p.state), p.out.drops);
  }

  lemma IngestLinesKeepsSplitter(c: Cursor, lines: seq<SplitLine>)
    ensures IngestLines(c, lines).splitter == c.splitter
    ensures IngestLines(c, lines).warningActive == c.warningActive
    ensures IngestLines(c, lines).warnings == c.warnings
    decreases |lines|
  {
    if |lines| > 0 { IngestLinesKeepsSplitter(IngestLine(c, lines[0]), lines[1..]); }
  }

  lemma ChunkTiles(cap: nat, stream: Text, c: Cursor, segments: seq<Segment>, held: Text, chunk: Text)
    returns (all: seq<Segment>, kept: Text)
    requires Valid(c.splitter) && Holds(c.splitter, held) && Tiles(stream, c, segments, held) && Paired(chunk)
    requires Arranged(cap, segments) && Stands(cap, segments, c.splitter, held) && Warned(c, segments)
    ensures Tiles(stream + chunk, OnChunk(cap, c, chunk), all, kept)
    ensures Holds(OnChunk(cap, c, chunk).splitter, kept) && Valid(OnChunk(cap, c, chunk).splitter)
    ensures Arranged(cap, all) && Stands(cap, all, OnChunk(cap, c, chunk).splitter, kept)
    ensures Warned(OnChunk(cap, c, chunk), all)
  {
    var p := Push(cap, c.splitter, chunk);
    var gap;
    gap, kept := PushReports(cap, c.splitter, held, chunk);
    GapIsOk(cap, c.splitter, held, chunk);
    PushKeepsValid(cap, c.splitter, chunk);
    PushLinesAreGood(cap, c.splitter, chunk);
    AccountOffset(c, p);
    Laws.Assoc(Join(segments), held, chunk);
    var kind := KindOf(c.splitter);
    GapTiles(stream + chunk, c, Account(c, p), segments, gap, kind, Laws.Rejoin(p.out.lines) + kept);
    all := AddLines(WithGap(segments, gap, kind), p.out.lines);
    LinesTile(stream + chunk, Account(c, p), WithGap(segments, gap, kind), p.out.lines, kept);
    IngestLinesKeepsSplitter(Account(c, p), p.out.lines);
    ChunkArranged(cap, segments, c.splitter, held, chunk, gap, p, kept);
    ChunkWarns(cap, c, segments, held, chunk, gap, p);
    ArrangeGap(cap, segments, c.splitter, held, chunk, gap, p, kept);
    LinesWarn(Account(c, p), WithGap(segments, gap, kind), p.out.lines);
    SameWarnings(Account(c, p), OnChunk(cap, c, chunk), all);
  }

  lemma ReadCompleteTiles(cap: nat, stream: Text, c: Cursor, parses: Text -> bool, segments: seq<Segment>, held: Text)
    returns (all: seq<Segment>, kept: Text)
    requires Valid(c.splitter) && Holds(c.splitter, held) && Tiles(stream, c, segments, held)
    requires Arranged(cap, segments) && Stands(cap, segments, c.splitter, held) && Warned(c, segments)
    ensures Tiles(stream, OnReadComplete(c, parses), all, kept)
    ensures Holds(OnReadComplete(c, parses).splitter, kept) && Valid(OnReadComplete(c, parses).splitter)
    ensures Arranged(cap, all) && Stands(cap, all, OnReadComplete(c, parses).splitter, kept)
    ensures Warned(OnReadComplete(c, parses), all)
  {
    var b := c.splitter.body;
    if b.skipping {
      CheckpointFields(c, parses);
      all, kept := CheckpointTiles(cap, stream, c, OnReadComplete(c, parses), segments, held);
    } else if |b.buf| == 0 || !parses(b.buf) {
      all, kept := segments, held;
    } else {
      var line := SplitLine(b.buf, ByteCount(b.buf), 0);
      FinalizeIsOneLine(c, parses, line);
      FinalizeTiles(cap, stream, c, OnReadComplete(c, parses), segments, line);
      all, kept := segments + [Line(line)], [];
      OtherWarns(c, segments, Line(line));
      SameWarnings(c, OnReadComplete(c, parses), all);
    }
  }

  lemma FinalizeTiles(cap: nat, stream: Text, c: Cursor, c': Cursor, segments: seq<Segment>, line: SplitLine)
    requires GoodLine(line) && line.terminatorBytes == 0 && Tiles(stream, c, segments, line.text)
    requires Arranged(cap, segments) && |OpenLine(segments)| == 0 && c.splitter.bomConsumed
    requires c'.records == IngestLine(c, line).records && c'.byteOffset == IngestLine(c, line).byteOffset
    requires c'.splitter == c.splitter.(atEof := true, body := FRESH_BODY)
    ensures Tiles(stream, c', segments + [Line(line)], [])
    ensures Arranged(cap, segments + [Line(line)]) && Stands(cap, segments + [Line(line)], c'.splitter, [])
  {
    assert line.text == (line.text + Laws.Terminator(0)) + [];
    LineTiles(stream, c, segments, line, []);
    ArrangedSnoc(cap, segments, Line(line));
  }

  lemma CheckpointTiles(cap: nat, stream: Text, c: Cursor, c': Cursor, segments: seq<Segment>, held: Text)
    returns (all: seq<Segment>, kept: Text)
    requires Valid(c.splitter) && c.splitter.body.skipping && Holds(c.splitter, held) && Tiles(stream, c, segments, held)
    requires Arranged(cap, segments) && Stands(cap, segments, c.splitter, held) && Warned(c, segments)
    requires c'.byteOffset == c.byteOffset + c.splitter.body.skipBytes && c'.records == c.records
    requires c.splitter.body.skipBytes == 0 ==> c'.warnings == c.warnings && c'.warningActive == c.warningActive
    requires
      var told := OnOversizedBytes(c, Drop(c.splitter.body.skipBytes, 0));
      c.splitter.body.skipBytes > 0 ==> c'.warnings == told.warnings && c'.warningActive == told.warningActive
    requires c'.splitter == c.splitter.(body := c.splitter.body.(skipBytes := 0))
    ensures Tiles(stream, c', all, kept)
    ensures Holds(c'.splitter, kept) && Valid(c'.splitter)
    ensures Arranged(cap, all) && Stands(cap, all, c'.splitter, kept) && Warned(c', all)
  {
    var b := c.splitter.body;
    var gap := CountedPart(b, held);
    kept := Pending(b);
    CountedAndPending(b, held);
    NothingCounted(c'.splitter.body, kept);
    GapTiles(stream, c, c', segments, gap, Piece, kept);
    all := WithGap(segments, gap, Piece);
    Laws.IndexOfLfConcat(gap, kept);
    if |gap| > 0 { ArrangedSnoc(cap, segments, Gap(gap, Piece)); }
    CheckpointWarns(c, c', segments, gap);
  }

  lemma CheckpointWarns(c: Cursor, c': Cursor, segments: seq<Segment>, gap: Text)
    requires Warned(c, segments) && Paired(gap) && !HasLf(gap) && ByteCount(gap) == c.splitter.body.skipBytes
    requires c.splitter.body.skipBytes == 0 ==> c'.warnings == c.warnings && c'.warningActive == c.warningActive
    requires
      var told := OnOversizedBytes(c, Drop(c.splitter.body.skipBytes, 0));
      c.splitter.body.skipBytes > 0 ==> c'.warnings == told.warnings && c'.warningActive == told.warningActive
    ensures Warned(c', WithGap(segments, gap, Piece))
  {
    BytesOfSome(gap);
    if |gap| > 0 {
      PieceWarns(c, c', segments, gap, Drop(c.splitter.body.skipBytes, 0));
    } else {
      SameWarnings(c, c', segments);
    }
  }

  lemma BytesOfSome(text: Text)
    ensures ByteCount(text) > 0 <==> |text| > 0
  {
  }

  lemma NothingCounted(b: Body, kept: Text)
    requires b.skipping && b.skipBytes == 0 && kept == Pending(b)
    ensures HoldsSkipped(b, kept)
  {
    assert CountedPart(b, kept) == [];
  }

  lemma CheckpointFields(c: Cursor, parses: Text -> bool)
    requires Valid(c.splitter) && c.splitter.body.skipping
    ensures
      var b := c.splitter.body;
      var c' := OnReadComplete(c, parses);
      && c'.byteOffset == c.byteOffset + b.skipBytes && c'.records == c.records
      && c'.splitter == c.splitter.(body := b.(skipBytes := 0))
      && (b.skipBytes == 0 ==> c'.warnings == c.warnings && c'.warningActive == c.warningActive)
      && var told := OnOversizedBytes(c, Drop(b.skipBytes, 0));
         (b.skipBytes > 0 ==> c'.warnings == told.warnings && c'.warningActive == told.warningActive)
  {
  }

  lemma FinalizeIsOneLine(c: Cursor, parses: Text -> bool, line: SplitLine)
    requires Valid(c.splitter) && !c.splitter.body.skipping && |c.splitter.body.buf| > 0 && parses(c.splitter.body.buf)
    requires line == SplitLine(c.splitter.body.buf, ByteCount(c.splitter.body.buf), 0)
    ensures
      var c' := OnReadComplete(c, parses);
      && c'.records == IngestLine(c, line).records && c'.byteOffset == IngestLine(c, line).byteOffset
      && c'.splitter == c.splitter.(atEof := true, body := FRESH_BODY)
      && c'.warnings == c.warnings && c'.warningActive == c.warningActive
  {
    var c1 := c.(splitter := c.splitter.(atEof := true, body := FRESH_BODY));
    assert FinalizeIf(c.splitter, parses).0 == c1.splitter;
    assert FinalizeIf(c.splitter, parses).1 == [line];
    assert IngestLines(c1, [line]) == IngestLine(c1, line) by {
      assert [line][1..] == [];
    }
  }

  /** Byte conservation over whole runs: whatever the interleaving of chunks, read completions and
      rotations, the stream since the last rotation is tiled by the reported segments and the text held; and
      nothing is passed over but the byte order mark, late terminators and the pieces of oversized lines. */
  lemma {:induction false} RunTiles(cap: nat, parses: Text -> bool, ops: seq<Op>) returns (segments: seq<Segment>, held: Text)
    requires forall op :: op in ops && op.Chunk? ==> Paired(op.text)
    ensures
      var c := Run(cap, parses, ops);
      && Valid(c.splitter) && Holds(c.splitter, held) && Tiles(Stream(ops), c, segments, held)
      && Arranged(cap, segments) && Stands(cap, segments, c.splitter, held) && Warned(c, segments)
    decreases |ops|
  {
    segments, held := [], [];
    if |ops| > 0 && !ops[|ops| - 1].Reset? {
      var before := ops[..|ops| - 1];
      var s, h := RunTiles(cap, parses, before);
      var c := Run(cap, parses, before);
      match ops[|ops| - 1]
      case Chunk(text) =>
        segments, held := ChunkTiles(cap, Stream(before), c, s, h, text);
      case ReadComplete =>
        segments, held := ReadCompleteTiles(cap, Stream(before), c, parses, s, h);
    }
  }

  /** A read completion leaves nothing behind but a tail that does not parse, or the one CR that may belong to a
      terminator: all else of the stream lies in the tiling before the cursor. */
  lemma ReadCompleteLeavesLittle(cap: nat, parses: Text -> bool, ops: seq<Op>) returns (segments: seq<Segment>, held: Text)
    requires forall op :: op in ops && op.Chunk? ==> Paired(op.text)
    ensures
      var c := Run(cap, parses, ops + [ReadComplete]);
      && Tiles(Stream(ops), c, segments, held) && Arranged(cap, segments) && Stands(cap, segments, c.splitter, held)
      && (|held| == 0 || held == [CR] || !parses(held))
  {
    var all := ops + [ReadComplete];
    assert all[..|ops|] == ops && forall op :: op in all && op.Chunk? ==> op in ops;
    var before, heldBefore := RunTiles(cap, parses, ops);
    segments, held := RunTiles(cap, parses, all);
    LittleIsHeld(Run(cap, parses, ops), parses, held);
  }

  lemma LittleIsHeld(c: Cursor, parses: Text -> bool, held: Text)
    requires Valid(c.splitter) && Holds(OnReadComplete(c, parses).splitter, held)
    ensures |held| == 0 || held == [CR] || !parses(held)
  {
    var b := c.splitter.body;
    if b.skipping {
      CheckpointFields(c, parses);
      var b' := OnReadComplete(c, parses).splitter.body;
      CountedAndPending(b', held);
      BytesOfSome(CountedPart(b', held));
    } else if |b.buf| > 0 && parses(b.buf) {
      FinalizeIsOneLine(c, parses, SplitLine(b.buf, ByteCount(b.buf), 0));
    }
  }

  /** A record's byte offset is the number of UTF-8 octets of the stream before its text. */
  lemma OffsetsAreExact(cap: nat, parses: Text -> bool, ops: seq<Op>, i: nat) returns (before: Text, after: Text)
    requires forall op :: op in ops && op.Chunk? ==> Paired(op.text)
    requires i < |Run(cap, parses, ops).records|
    ensures
      var r := Run(cap, parses, ops).records[i];
      && Stream(ops) == before + (r.text + after)
      && r.byteOffset == Utf8Length(before)
      && r.byteLength == Utf8Length(r.text)
  {
    var segments, held := RunTiles(cap, parses, ops);
    before, after := RecordIsLocated(segments, i);
    var text := RecordsOf(segments)[i].text;
    Laws.Assoc(before, text + after, held);
    Laws.Assoc(text, after, held);
    after := after + held;
  }

  lemma {:induction false} RecordIsLocated(segments: seq<Segment>, i: nat) returns (before: Text, after: Text)
    requires i < |RecordsOf(segments)|
    ensures
      var r := RecordsOf(segments)[i];
      Join(segments) == before + (r.text + after) && r.byteOffset == Utf8Length(before) && r.byteLength == Utf8Length(r.text)
    decreases |segments|
  {
    var front, last := segments[..|segments| - 1], segments[|segments| - 1];
    if i < |RecordsOf(front)| {
      before, after := RecordIsLocated(front, i);
      var text := RecordsOf(front)[i].text;
      Laws.Assoc(before, text + after, SegmentText(last));
      Laws.Assoc(text, after, SegmentText(last));
      after := after + SegmentText(last);
    } else {
      before, after := Join(front), Laws.Terminator(last.line.terminatorBytes);
    }
  }

  // ---------- one banner per oversized line ----------

  /** The oversized lines of a tiling: those whose last piece brought the LF, and the one that is still open. */
  function OversizedLines(segments: seq<Segment>): nat {
    ClosedLines(segments) + if |OpenLine(segments)| > 0 then 1 else 0
  }

  function ClosedLines(segments: seq<Segment>): nat {
    if |segments| == 0 then 0
    else
      var last := segments[|segments| - 1];
      ClosedLines(segments[..|segments| - 1]) + if last.Gap? && last.kind.Piece? && HasLf(last.text) then 1 else 0
  }

  /** As many banners as oversized lines, and the warning is on while one is open. */
  ghost predicate Warned(c: Cursor, segments: seq<Segment>) {
    c.warnings == OversizedLines(segments) && (c.warningActive <==> |OpenLine(segments)| > 0)
  }

  lemma ClosedSnoc(segments: seq<Segment>, s: Segment)
    ensures ClosedLines(segments + [s]) == ClosedLines(segments) + if s.Gap? && s.kind.Piece? && HasLf(s.text) then 1 else 0
    ensures OpenLine(segments + [s]) == if s.Gap? && s.kind.Piece? && !HasLf(s.text) then OpenLine(segments) + s.text else []
  {
    assert (segments + [s])[..|segments|] == segments;
  }

  /** Reporting a piece raises the banner unless it is up, and takes it down with the line's end. */
  lemma PieceWarns(c: Cursor, c': Cursor, segments: seq<Segment>, gap: Text, d: Drop)
    requires Warned(c, segments) && |gap| > 0 && (d.terminatorBytes > 0 <==> HasLf(gap))
    requires c'.warnings == OnOversizedBytes(c, d).warnings && c'.warningActive == OnOversizedBytes(c, d).warningActive
    ensures Warned(c', segments + [Gap(gap, Piece)])
  {
    ClosedSnoc(segments, Gap(gap, Piece));
  }

  /** Anything else leaves it alone. */
  lemma OtherWarns(c: Cursor, segments: seq<Segment>, s: Segment)
    requires Warned(c, segments) && |OpenLine(segments)| == 0 && !(s.Gap? && s.kind.Piece?)
    ensures Warned(c, segments + [s]) && |OpenLine(segments + [s])| == 0
  {
    ClosedSnoc(segments, s);
  }

  lemma {:induction false} LinesWarn(c: Cursor, segments: seq<Segment>, lines: seq<SplitLine>)
    requires Warned(c, segments) && (|lines| > 0 ==> |OpenLine(segments)| == 0)
    ensures Warned(c, AddLines(segments, lines))
    decreases |lines|
  {
    if |lines| > 0 {
      OtherWarns(c, segments, Line(lines[0]));
      LinesWarn(c, segments + [Line(lines[0])], lines[1..]);
    }
  }

  /** The splitter reports a dropped line exactly when the gap is the end of one. */
  lemma DropsOfPush(cap: nat, st: State, held: Text, chunk: Text)
    requires Valid(st) && Holds(st, held) && !HasLf(held) && Paired(chunk)
    ensures
      var drops, gap := Push(cap, st, chunk).out.drops, GapOf(st, held, chunk);
      if st.body.skipping && |gap| > 0 then |drops| == 1 && drops[0].terminatorBytes > 0 && HasLf(gap) else |drops| == 0
  {
    GapIsOk(cap, st, held, chunk);
    if st.body.skipping {
      var t := Discarded(st.body, chunk);
      if HasLf(t) { EndingPush(cap, st, t, chunk); } else { SkippingPush(cap, st, t, chunk); }
    } else {
      var front := Begin(st.bomConsumed, st.atEof, st.eofPendingCr, chunk);
      SplittingPush(cap, st, chunk, front, st.body.buf + front.text);
    }
  }

  lemma AccountWarns(c: Cursor, p: Pushed)
    requires |p.out.drops| <= 1
    ensures |p.out.drops| == 0 ==> Account(c, p).warnings == c.warnings && Account(c, p).warningActive == c.warningActive
    ensures |p.out.drops| == 1 ==>
      var told := OnOversizedBytes(c, p.out.drops[0]);
      Account(c, p).warnings == told.warnings && Account(c, p).warningActive == told.warningActive
  {
    var start := c.(splitter := p.state);
    if |p.out.drops| == 1 {
      assert p.out.drops[1..] == [];
      assert OnDrops(start, p.out.drops) == OnOversizedBytes(start, p.out.drops[0]);
    }
  }

  lemma ChunkWarns(cap: nat, c: Cursor, segments: seq<Segment>, held: Text, chunk: Text, gap: Text, p: Pushed)
    requires Valid(c.splitter) && Holds(c.splitter, held) && !HasLf(held) && Paired(chunk)
    requires p == Push(cap, c.splitter, chunk) && gap == GapOf(c.splitter, held, chunk)
    requires Warned(c, segments) && (!c.splitter.body.skipping ==> |OpenLine(segments)| == 0)
    ensures Warned(Account(c, p), WithGap(segments, gap, KindOf(c.splitter)))
  {
    DropsOfPush(cap, c.splitter, held, chunk);
    AccountWarns(c, p);
    if |gap| > 0 {
      if c.splitter.body.skipping {
        PieceWarns(c, Account(c, p), segments, gap, p.out.drops[0]);
      } else {
        OtherWarns(c, segments, Gap(gap, KindOf(c.splitter)));
        SameWarnings(c, Account(c, p), segments + [Gap(gap, KindOf(c.splitter))]);
      }
    } else {
      SameWarnings(c, Account(c, p), segments);
    }
  }

  lemma SameWarnings(c: Cursor, c': Cursor, segments: seq<Segment>)
    requires Warned(c, segments) && c'.warnings == c.warnings && c'.warningActive == c.warningActive
    ensures Warned(c', segments)
  {
  }

  /** One banner per oversized line, however many reports it is split into: over any run the banners shown are
      the oversized lines of the tiling. */
  lemma OneWarningPerOversizedLine(cap: nat, parses: Text -> bool, ops: seq<Op>) returns (segments: seq<Segment>, held: Text)
    requires forall op :: op in ops && op.Chunk? ==> Paired(op.text)
    ensures
      var c := Run(cap, parses, ops);
      && Tiles(Stream(ops), c, segments, held) && Arranged(cap, segments) && Stands(cap, segments, c.splitter, held)
      && c.warnings == OversizedLines(segments)
  {
    segments, held := RunTiles(cap, parses, ops);
  }
}
