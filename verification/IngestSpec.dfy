/** From chunks to records: the byte cursor of the ingest loop, and why every offset is exact. */
module IngestSpec {
  import opened Collections
  import opened Utf16
  import opened SplitterSpec
  import Laws = SplitterLaws

  /** An ingested line with the offset and length it is stored under. */
  datatype Record = Record(text: Text, byteOffset: nat, byteLength: nat)

  /** `warnings` counts the banners shown. */
  datatype Cursor = Cursor(
    splitter: State, byteOffset: nat, records: seq<Record>,
    warningActive: bool, warnings: nat)

  const START := Cursor(FRESH, 0, [], false, 0)

  /** The oversized-line callback. */
  function OnOversizedBytes(c: Cursor, d: Drop): Cursor {
    c.(byteOffset := c.byteOffset + d.bytes + d.terminatorBytes,
       warnings := if c.warningActive then c.warnings else c.warnings + 1,
       warningActive := d.terminatorBytes == 0)
  }

  function OnDrops(c: Cursor, drops: seq<Drop>): Cursor
    decreases |drops|
  {
    if |drops| == 0 then c else OnDrops(OnOversizedBytes(c, drops[0]), drops[1..])
  }

  function IngestLine(c: Cursor, line: SplitLine): Cursor {
    c.(records := c.records + [Record(line.text, c.byteOffset, line.byteLength)],
       byteOffset := c.byteOffset + line.byteLength + line.terminatorBytes)
  }

  function IngestLines(c: Cursor, lines: seq<SplitLine>): Cursor
    decreases |lines|
  {
    if |lines| == 0 then c else IngestLines(IngestLine(c, lines[0]), lines[1..])
  }

  function OnChunk(cap: nat, c: Cursor, chunk: Text): Cursor {
    var p := Push(cap, c.splitter, chunk);
    IngestLines(Account(c, p), p.out.lines)
  }

  /** The callbacks run during the push, the leading bytes are added after it. */
  function Account(c: Cursor, p: Pushed): Cursor {
    var dropped := OnDrops(c.(splitter := p.state), p.out.drops);
    dropped.(byteOffset := dropped.byteOffset + p.out.leading)
  }

  /** A stable end of the initial read: oversized bytes are accounted for, and a buffered tail that
      parses is a record although its terminator has not come. */
  function OnReadComplete(c: Cursor, parses: Text -> bool): Cursor {
    var (afterCheckpoint, dropped) := Checkpoint(c.splitter);
    var c1 := c.(splitter := afterCheckpoint);
    var c2 := if dropped > 0 then OnOversizedBytes(c1, Drop(dropped, 0)) else c1;
    var (afterFinalize, lines) := FinalizeIf(c2.splitter, parses);
    IngestLines(c2.(splitter := afterFinalize), lines)
  }

  datatype Op = Chunk(text: Text) | ReadComplete | Reset

  function Step(cap: nat, parses: Text -> bool, c: Cursor, op: Op): Cursor {
    match op
    case Chunk(text) => OnChunk(cap, c, text)
    case ReadComplete => OnReadComplete(c, parses)
    case Reset => START
  }

  function Run(cap: nat, parses: Text -> bool, ops: seq<Op>): Cursor {
    if |ops| == 0 then START
    else Step(cap, parses, Run(cap, parses, ops[..|ops| - 1]), ops[|ops| - 1])
  }

  /** The stream decoded so far: the chunks since the last rotation. */
  function Stream(ops: seq<Op>): Text {
    if |ops| == 0 then []
    else
      var before := Stream(ops[..|ops| - 1]);
      match ops[|ops| - 1]
      case Chunk(text) => before + text
      case ReadComplete => before
      case Reset => []
  }

  // ---------- what a splitter holds back ----------

  /** `held` is the text received and not yet reported. */
  ghost predicate Holds(st: State, held: Text) {
    if st.eofPendingCr then held == [CR]
    else if st.body.skipping then HoldsSkipped(st.body, held)
    else held == st.body.buf
  }

  ghost predicate HoldsSkipped(b: Body, held: Text) {
    && (b.skipPendingCr ==> EndsWithCr(held))
    && Paired(CountedPart(b, held))
    && ByteCount(CountedPart(b, held)) == b.skipBytes
  }

  function CountedPart(b: Body, held: Text): Text {
    if b.skipPendingCr && |held| > 0 then DropLast(held) else held
  }

  function DropBytes(drops: seq<Drop>): nat {
    if |drops| == 0 then 0 else drops[0].bytes + drops[0].terminatorBytes + DropBytes(drops[1..])
  }

  /** What one step reports, as text: `gap` (byte order mark, late terminators, discarded content), then
      complete lines; `kept` is held from now on. */
  ghost predicate Reports(before: Text, gapBytes: nat, gap: Text, lines: seq<SplitLine>, st: State, kept: Text) {
    && before == gap + (Laws.Rejoin(lines) + kept)
    && Paired(gap) && ByteCount(gap) == gapBytes
    && Holds(st, kept)
  }

  /** The text of a line being discarded that a chunk brings, with a CR held from before. */
  function Discarded(b: Body, chunk: Text): Text {
    Pending(b) + chunk
  }

  function LeadingTerminator(t: Text): Text {
    if |t| > 1 && t[0] == CR && t[1] == LF then [CR, LF] else if |t| > 0 && t[0] == LF then [LF] else []
  }

  /** Up to the first LF and with it. */
  function FirstLine(t: Text): Text
    requires HasLf(t)
  {
    t[..IndexOfLf(t) + 1]
  }

  function AfterFirstLine(t: Text): Text
    requires HasLf(t)
  {
    t[IndexOfLf(t) + 1..]
  }

  /** The gap that a push reports. */
  function GapOf(st: State, held: Text, chunk: Text): Text {
    if st.body.skipping then
      var t := Discarded(st.body, chunk);
      if HasLf(t) then CountedPart(st.body, held) + FirstLine(t) else []
    else if st.atEof then LeadingTerminator(held + chunk)
    else if !st.bomConsumed && |chunk| > 0 && chunk[0] == BOM then [BOM]
    else []
  }

  /** The text held after a push. */
  function KeptOf(st: State, held: Text, chunk: Text): Text {
    if st.body.skipping then
      var t := Discarded(st.body, chunk);
      if HasLf(t) then Tail(AfterFirstLine(t)) else CountedPart(st.body, held) + t
    else
      var front := Begin(st.bomConsumed, st.atEof, st.eofPendingCr, chunk);
      if front.eofPendingCr then [CR] else Tail(st.body.buf + front.text)
  }

  predicate IsTerminator(t: Text) {
    t == [LF] || t == [CR, LF]
  }

  /** What the gap of one push may be: while a line is being discarded, all that is held and the rest of the
      line, LF included, or nothing as long as no LF comes; otherwise the byte order mark that opens the
      stream, the late terminator of a line emitted at end of file, or nothing. Discarding starts with more
      held than the cap. */
  ghost predicate GapOk(cap: nat, st: State, held: Text, chunk: Text, gap: Text, p: Pushed, kept: Text) {
    && !HasLf(kept)
    && (p.state.atEof ==> st.atEof && gap == [] && p.out.lines == [])
    && (!p.state.bomConsumed ==> !st.bomConsumed && gap == [] && p.out.lines == [])
    && (if st.body.skipping && gap == [] then kept == held + chunk && p.state.body.skipping && p.out.lines == []
        else p.state.body.skipping ==> |kept| > cap)
    && (if st.body.skipping then |gap| == 0 || (IndexOfLf(gap) == |gap| - 1 && |held| < |gap|)
        else |gap| == 0 || (gap == [BOM] && !st.bomConsumed) || (st.atEof && IsTerminator(gap)))
  }

  lemma PushReports(cap: nat, st: State, held: Text, chunk: Text) returns (gap: Text, kept: Text)
    requires Valid(st) && Holds(st, held) && Paired(chunk)
    ensures gap == GapOf(st, held, chunk) && kept == KeptOf(st, held, chunk)
    ensures
      var p := Push(cap, st, chunk);
      Reports(held + chunk, DropBytes(p.out.drops) + p.out.leading, gap, p.out.lines, p.state, kept)
  {
    if st.body.skipping {
      gap, kept := SkippingReports(cap, st, held, chunk);
    } else {
      gap, kept := SplittingReports(cap, st, held, chunk);
    }
  }

  lemma KeepHolds(cap: nat, st: State, tail: Text)
    requires Paired(tail) && !st.eofPendingCr && st.body == Keep(cap, tail)
    ensures Holds(st, tail)
  {
    Laws.SkipCounts(0, tail);
  }

  lemma SplittingReports(cap: nat, st: State, held: Text, chunk: Text) returns (gap: Text, kept: Text)
    requires Valid(st) && !st.body.skipping && Holds(st, held) && Paired(chunk)
    ensures gap == GapOf(st, held, chunk) && kept == KeptOf(st, held, chunk)
    ensures
      var p := Push(cap, st, chunk);
      Reports(held + chunk, DropBytes(p.out.drops) + p.out.leading, gap, p.out.lines, p.state, kept)
  {
    var front := Begin(st.bomConsumed, st.atEof, st.eofPendingCr, chunk);
    var t := st.body.buf + front.text;
    gap := FrontReports(st, held, chunk);
    kept := if front.eofPendingCr then [CR] else Tail(t);
    SplitCovers(gap, t, front.eofPendingCr, kept);
    SplittingPush(cap, st, chunk, front, t);
    KeptHolds(cap, st, chunk, front, t, kept);
  }

  /** What a push reports and keeps when no line is being discarded. */
  lemma SplittingPush(cap: nat, st: State, chunk: Text, front: Front, t: Text)
    requires !st.body.skipping && front == Begin(st.bomConsumed, st.atEof, st.eofPendingCr, chunk) && t == st.body.buf + front.text
    ensures
      var p := Push(cap, st, chunk);
      && p.out.lines == Lines(t) && p.out.drops == [] && p.out.leading == front.bytes
      && p.state == State(front.bomConsumed, front.atEof, front.eofPendingCr, Keep(cap, Tail(t)))
  {
  }

  lemma KeptHolds(cap: nat, st: State, chunk: Text, front: Front, t: Text, kept: Text)
    requires Valid(st) && !st.body.skipping && Paired(chunk)
    requires front == Begin(st.bomConsumed, st.atEof, st.eofPendingCr, chunk) && t == st.body.buf + front.text
    requires kept == if front.eofPendingCr then [CR] else Tail(t)
    ensures Holds(Push(cap, st, chunk).state, kept)
  {
    SplittingPush(cap, st, chunk, front, t);
    if !front.eofPendingCr {
      BeginPaired(st.bomConsumed, st.atEof, st.eofPendingCr, chunk);
      PairedConcat(st.body.buf, front.text);
      TailPaired(t);
      KeepHolds(cap, Push(cap, st, chunk).state, kept);
    }
  }

  lemma SplitCovers(gap: Text, t: Text, pendingCr: bool, kept: Text)
    requires if pendingCr then t == [] && kept == [CR] else kept == Tail(t)
    ensures gap + (t + (if pendingCr then [CR] else [])) == gap + (Laws.Rejoin(Lines(t)) + kept)
  {
    if pendingCr { Laws.NoLfLines(t); }
    Laws.RejoinLines(t);
    assert !pendingCr ==> t + [] == t;
  }

  /** The leading bytes of a push, as text. */
  lemma FrontReports(st: State, held: Text, chunk: Text) returns (gap: Text)
    requires Valid(st) && !st.body.skipping && Holds(st, held)
    ensures gap == GapOf(st, held, chunk)
    ensures
      var front := Begin(st.bomConsumed, st.atEof, st.eofPendingCr, chunk);
      && held + chunk == gap + ((st.body.buf + front.text) + (if front.eofPendingCr then [CR] else []))
      && Paired(gap) && ByteCount(gap) == front.bytes
      && (front.eofPendingCr ==> front.text == [])
  {
    if st.atEof {
      gap := LateTerminatorReports(st.eofPendingCr, held, chunk);
      LateFront(st.eofPendingCr, chunk);
      var text := DropTerminator(true, st.eofPendingCr, chunk).text;
      assert st.body.buf + text == text;
    } else if !st.bomConsumed {
      gap := if |chunk| > 0 && chunk[0] == BOM then [BOM] else [];
      GapCounts(gap);
      assert held == [] && held + chunk == chunk;
    } else {
      gap := [];
    }
  }

  lemma LateFront(pendingCr: bool, chunk: Text)
    ensures
      var front, eof := Begin(true, true, pendingCr, chunk), DropTerminator(true, pendingCr, chunk);
      front.text == eof.text && front.bytes == eof.bytes && front.eofPendingCr == eof.pendingCr
  {
  }

  /** A terminator that comes after its line was emitted. */
  lemma LateTerminatorReports(pendingCr: bool, held: Text, chunk: Text) returns (gap: Text)
    requires held == if pendingCr then [CR] else []
    ensures gap == LeadingTerminator(held + chunk)
    ensures
      var eof := DropTerminator(true, pendingCr, chunk);
      && held + chunk == gap + (eof.text + (if eof.pendingCr then [CR] else []))
      && Paired(gap) && ByteCount(gap) == eof.bytes
      && (eof.pendingCr ==> eof.text == [])
  {
    var t := held + chunk;
    gap := LeadingTerminator(t);
    GapCounts(gap);
    assert t == if pendingCr then [CR] + chunk else chunk;
    LateTerminatorCuts(t, gap, DropTerminator(true, false, t));
    AfterTerminator(pendingCr, chunk, t);
  }

  /** Where the late terminator ends. */
  lemma LateTerminatorCuts(t: Text, gap: Text, eof: AfterEof)
    requires gap == LeadingTerminator(t) && eof == DropTerminator(true, false, t)
    ensures t == gap + (eof.text + (if eof.pendingCr then [CR] else []))
    ensures eof.bytes == |gap| && (eof.pendingCr ==> |eof.text| == 0)
  {
    if |t| > 1 && t[0] == CR && t[1] == LF {
      assert t == [CR, LF] + t[2..] && t[2..] + [] == t[2..];
    } else if |t| > 0 && t[0] == LF {
      assert t == [LF] + t[1..] && t[1..] + [] == t[1..];
    } else {
      assert t + [] == t && [] + t == t && [] + [CR] == [CR];
    }
  }

  lemma AfterTerminator(pendingCr: bool, chunk: Text, t: Text)
    requires t == if pendingCr then [CR] + chunk else chunk
    ensures DropTerminator(true, pendingCr, chunk) == DropTerminator(true, false, t)
  {
  }

  lemma GapCounts(gap: Text)
    requires |gap| == 0 || gap == [LF] || gap == [CR, LF] || gap == [BOM]
    ensures Paired(gap) && ByteCount(gap) == if gap == [BOM] then 3 else |gap|
  {
    assert gap != [] ==> ByteCount(gap[1..]) == |gap| - 1;
  }

  lemma SkippingReports(cap: nat, st: State, held: Text, chunk: Text) returns (gap: Text, kept: Text)
    requires Valid(st) && st.body.skipping && Holds(st, held) && Paired(chunk)
    ensures gap == GapOf(st, held, chunk) && kept == KeptOf(st, held, chunk)
    ensures
      var p := Push(cap, st, chunk);
      Reports(held + chunk, DropBytes(p.out.drops) + p.out.leading, gap, p.out.lines, p.state, kept)
  {
    var u, t := CountedPart(st.body, held), Discarded(st.body, chunk);
    HeldAndChunk(st.body, held, chunk, u, t);
    if HasLf(t) {
      var i := IndexOfLf(t);
      gap, kept := u + t[..i + 1], Tail(t[i + 1..]);
      EndingPush(cap, st, t, chunk);
      SkippedLineEnds(cap, st.body, u, t, i, t[i + 1..], Push(cap, st, chunk));
    } else {
      gap, kept := [], u + t;
      SkippedLineGoesOn(cap, st, u, t, chunk);
    }
  }

  lemma HeldAndChunk(b: Body, held: Text, chunk: Text, u: Text, t: Text)
    requires ValidBody(b) && b.skipping && HoldsSkipped(b, held) && Paired(chunk)
    requires u == CountedPart(b, held) && t == Discarded(b, chunk)
    ensures held + chunk == u + t && Paired(t)
  {
    CountedAndPending(b, held);
    Laws.Assoc(u, Pending(b), chunk);
    PairedPrefixUnit(b, chunk);
  }

  lemma SkippedLineGoesOn(cap: nat, st: State, u: Text, t: Text, chunk: Text)
    requires Valid(st) && st.body.skipping && Paired(u) && ByteCount(u) == st.body.skipBytes
    requires t == Pending(st.body) + chunk && Paired(t) && !HasLf(t)
    ensures
      var p := Push(cap, st, chunk);
      Reports(u + t, DropBytes(p.out.drops) + p.out.leading, [], p.out.lines, p.state, u + t)
  {
    SkippedMore(st.body, u, t);
    SkippingPush(cap, st, t, chunk);
    assert [] + (Laws.Rejoin([]) + (u + t)) == u + t;
  }

  lemma SkippingPush(cap: nat, st: State, t: Text, chunk: Text)
    requires Valid(st) && st.body.skipping && t == Pending(st.body) + chunk && !HasLf(t)
    ensures
      var p := Push(cap, st, chunk);
      && p.state.body == Skip(st.body.skipBytes, t) && !p.state.eofPendingCr
      && p.out.drops == [] && p.out.leading == 0 && p.out.lines == []
  {
    Laws.DiscardingStep(cap, st.body, t, chunk);
  }

  lemma SkippedLineEnds(cap: nat, b: Body, u: Text, t: Text, i: nat, rest: Text, p: Pushed)
    requires Paired(u) && ByteCount(u) == b.skipBytes && Paired(t) && i == IndexOfLf(t) && i < |t| && rest == t[i + 1..]
    requires p.out.drops == [DropOf(b.skipBytes, LineOf(t[..i]))] && p.out.leading == 0 && p.out.lines == Lines(rest)
    requires p.state.body == Keep(cap, Tail(rest)) && !p.state.eofPendingCr
    ensures Reports(u + t, DropBytes(p.out.drops) + p.out.leading, u + t[..i + 1], p.out.lines, p.state, Tail(rest))
  {
    GapOfDropped(b, u, t);
    PairedSlices(t, i + 1);
    TailPaired(rest);
    KeepHolds(cap, p.state, Tail(rest));
    CoversRest(u, t, i + 1, u + t[..i + 1], Tail(rest));
  }

  lemma EndingPush(cap: nat, st: State, t: Text, chunk: Text)
    requires Valid(st) && st.body.skipping && t == Pending(st.body) + chunk && HasLf(t)
    ensures
      var p := Push(cap, st, chunk);
      var i := IndexOfLf(t);
      && p.out.drops == [DropOf(st.body.skipBytes, LineOf(t[..i]))] && p.out.leading == 0 && p.out.lines == Lines(t[i + 1..])
      && p.state == State(true, false, false, Keep(cap, Tail(t[i + 1..])))
  {
    Laws.ResumeFields(st.body, chunk, t);
  }

  lemma CoversRest(u: Text, t: Text, k: nat, gap: Text, kept: Text)
    requires k <= |t| && gap == u + t[..k] && kept == Tail(t[k..])
    ensures u + t == gap + (Laws.Rejoin(Lines(t[k..])) + kept)
  {
    Laws.RejoinLines(t[k..]);
    CutTwice(u, t, k);
  }

  lemma CutTwice(u: Text, t: Text, k: nat)
    requires k <= |t|
    ensures u + t == (u + t[..k]) + t[k..]
  {
  }

  /** The bytes reported for an oversized line are those of its content and terminator. */
  lemma GapOfDropped(b: Body, u: Text, t: Text)
    requires Paired(u) && ByteCount(u) == b.skipBytes && Paired(t) && HasLf(t)
    ensures
      var gap := u + t[..IndexOfLf(t) + 1];
      Paired(gap) && ByteCount(gap) == DropBytes([DropOf(b.skipBytes, LineOf(t[..IndexOfLf(t)]))])
  {
    var i := IndexOfLf(t);
    PairedSlices(t, i + 1);
    PairedConcat(u, t[..i + 1]);
    ByteCountConcat(u, t[..i + 1]);
    PairedPrefix(t, i);
    LineBytes(t[..i]);
    assert t[..i] + [LF] == t[..i + 1];
  }

  lemma PairedPrefix(t: Text, i: nat)
    requires Paired(t) && i < |t| && t[i] == LF
    ensures Paired(t[..i])
  {
    assert i > 0 && IsHigh(t[i - 1]) ==> IsLow(t[i]);
    PairedSlices(t, i);
  }

  /** Content and terminator of a line, in bytes. */
  lemma LineBytes(u: Text)
    requires Paired(u)
    ensures LineOf(u).byteLength + LineOf(u).terminatorBytes == ByteCount(u + [LF])
  {
    ByteCountConcat(u, [LF]);
    assert ByteCount([LF]) == 1;
    if EndsWithCr(u) {
      Laws.SkipCounts(0, u);
      assert u == DropLast(u) + [CR];
      ByteCountConcat(DropLast(u), [CR]);
      assert ByteCount([CR]) == 1;
    }
  }

  lemma SkippedMore(b: Body, u: Text, t: Text)
    requires Paired(u) && ByteCount(u) == b.skipBytes && Paired(t)
    ensures HoldsSkipped(Skip(b.skipBytes, t), u + t)
  {
    if |t| == 0 {
      assert u + t == u;
      HoldsCounted(Skip(b.skipBytes, t), u, u);
    } else {
      Laws.CountedConcat(u, t);
      CountedBytes(u, t);
      HoldsCounted(Skip(b.skipBytes, t), u + t, Counted(u + t));
    }
  }

  lemma CountedBytes(u: Text, t: Text)
    requires Paired(u) && Paired(t) && |t| > 0
    ensures Paired(Counted(u + t))
  {
    PairedConcat(u, t);
    Laws.SkipCounts(0, u + t);
  }

  lemma HoldsCounted(b: Body, held: Text, counted: Text)
    requires if b.skipPendingCr then EndsWithCr(held) && counted == Counted(held) else counted == held
    requires Paired(counted) && ByteCount(counted) == b.skipBytes
    ensures HoldsSkipped(b, held)
  {
  }

  // ---------- what a gap may be ----------

  lemma GapIsOk(cap: nat, st: State, held: Text, chunk: Text)
    requires Valid(st) && Holds(st, held) && !HasLf(held)
    ensures GapOk(cap, st, held, chunk, GapOf(st, held, chunk), Push(cap, st, chunk), KeptOf(st, held, chunk))
  {
    if st.body.skipping {
      var t := Discarded(st.body, chunk);
      if HasLf(t) { GapOfEndedLine(cap, st, held, chunk, t); } else { GapOfOpenLine(cap, st, held, chunk, t); }
    } else {
      GapBeforeLines(cap, st, held, chunk);
    }
  }

  lemma GapOfEndedLine(cap: nat, st: State, held: Text, chunk: Text, t: Text)
    requires Valid(st) && Holds(st, held) && !HasLf(held) && st.body.skipping
    requires t == Discarded(st.body, chunk) && HasLf(t)
    ensures GapOk(cap, st, held, chunk, GapOf(st, held, chunk), Push(cap, st, chunk), KeptOf(st, held, chunk))
  {
    var gap, kept := GapOf(st, held, chunk), KeptOf(st, held, chunk);
    EndedTexts(st, held, chunk, t, gap, kept);
    CountedAndPending(st.body, held);
    EndedGapShape(CountedPart(st.body, held), Pending(st.body), held, chunk, t, FirstLine(t));
    EndingPush(cap, st, t, chunk);
    EndedGapIsOk(cap, st, held, chunk, gap, Push(cap, st, chunk), kept);
  }

  lemma EndedTexts(st: State, held: Text, chunk: Text, t: Text, gap: Text, kept: Text)
    requires st.body.skipping && t == Discarded(st.body, chunk) && HasLf(t)
    requires gap == GapOf(st, held, chunk) && kept == KeptOf(st, held, chunk)
    ensures gap == CountedPart(st.body, held) + FirstLine(t)
    ensures kept == Tail(AfterFirstLine(t))
  {
  }

  lemma CountedAndPending(b: Body, held: Text)
    requires b.skipping && HoldsSkipped(b, held)
    ensures held == CountedPart(b, held) + Pending(b)
  {
  }

  lemma EndedGapIsOk(cap: nat, st: State, held: Text, chunk: Text, gap: Text, p: Pushed, kept: Text)
    requires st.body.skipping && IndexOfLf(gap) == |gap| - 1 && |held| < |gap|
    requires p.state == State(true, false, false, Keep(cap, kept)) && !HasLf(kept)
    ensures GapOk(cap, st, held, chunk, gap, p, kept)
  {
  }

  lemma EndedGapShape(u: Text, pending: Text, held: Text, chunk: Text, t: Text, line: Text)
    requires held == u + pending && !HasLf(held) && t == pending + chunk && HasLf(t) && line == FirstLine(t)
    ensures IndexOfLf(u + line) == |u + line| - 1 && |held| < |u + line|
  {
    Laws.IndexOfLfConcat(u, pending);
    Laws.IndexOfLfConcat(pending, chunk);
    UpToLf(t, line);
    Laws.IndexOfLfConcat(u, line);
  }

  lemma UpToLf(t: Text, line: Text)
    requires HasLf(t) && line == FirstLine(t)
    ensures IndexOfLf(line) == |line| - 1
  {
    var i := IndexOfLf(t);
    assert t == line + t[i + 1..];
    Laws.IndexOfLfConcat(line, t[i + 1..]);
  }

  lemma GapOfOpenLine(cap: nat, st: State, held: Text, chunk: Text, t: Text)
    requires Valid(st) && Holds(st, held) && !HasLf(held) && st.body.skipping
    requires t == Discarded(st.body, chunk) && !HasLf(t)
    ensures GapOk(cap, st, held, chunk, GapOf(st, held, chunk), Push(cap, st, chunk), KeptOf(st, held, chunk))
  {
    var u := CountedPart(st.body, held);
    CountedAndPending(st.body, held);
    Laws.Assoc(u, Pending(st.body), chunk);
    Laws.IndexOfLfConcat(u, Pending(st.body));
    Laws.IndexOfLfConcat(u, t);
    Laws.DiscardingStep(cap, st.body, t, chunk);
  }

  lemma GapBeforeLines(cap: nat, st: State, held: Text, chunk: Text)
    requires Valid(st) && Holds(st, held) && !st.body.skipping
    ensures GapOk(cap, st, held, chunk, GapOf(st, held, chunk), Push(cap, st, chunk), KeptOf(st, held, chunk))
  {
    var front := Begin(st.bomConsumed, st.atEof, st.eofPendingCr, chunk);
    SplittingPush(cap, st, chunk, front, st.body.buf + front.text);
    FlagsBeforeLines(st, chunk, front);
    Laws.NoLfLines([]);
  }

  /** A push that leaves a flag as it was had nothing to report. */
  lemma FlagsBeforeLines(st: State, chunk: Text, front: Front)
    requires Valid(st) && !st.body.skipping && front == Begin(st.bomConsumed, st.atEof, st.eofPendingCr, chunk)
    ensures front.eofPendingCr ==> front.atEof
    ensures front.atEof ==> st.atEof && |st.body.buf + front.text| == 0
    ensures !front.bomConsumed ==> !st.bomConsumed && |chunk| == 0 && |st.body.buf + front.text| == 0
  {
  }

  // ---------- lines as they are reported ----------

  ghost predicate GoodLine(line: SplitLine) {
    Paired(line.text) && !HasLf(line.text) && line.byteLength == ByteCount(line.text) && line.terminatorBytes <= 2
  }

  lemma LineTextBytes(line: SplitLine)
    requires GoodLine(line)
    ensures
      var text := line.text + Laws.Terminator(line.terminatorBytes);
      Paired(text) && ByteCount(text) == line.byteLength + line.terminatorBytes
  {
    var t := Laws.Terminator(line.terminatorBytes);
    GapCounts(t);
    PairedConcat(line.text, t);
    ByteCountConcat(line.text, t);
  }

  lemma LineHasNoLf(t: Text, i: nat)
    requires i == IndexOfLf(t) && i < |t|
    ensures !HasLf(LineOf(t[..i]).text)
  {
    Laws.IndexOfLfIsFirst(t);
    var text := LineOf(t[..i]).text;
    assert forall k :: 0 <= k < |text| ==> text[k] == t[k];
  }

  lemma {:induction false} LinesAreGood(t: Text)
    requires Paired(t)
    ensures forall l :: l in Lines(t) ==> GoodLine(l)
    decreases |t|
  {
    if HasLf(t) {
      var i := IndexOfLf(t);
      PairedSlices(t, i + 1);
      PairedPrefix(t, i);
      Laws.SkipCounts(0, t[..i]);
      LineHasNoLf(t, i);
      LinesAreGood(t[i + 1..]);
    }
  }

  lemma PushLinesAreGood(cap: nat, st: State, chunk: Text)
    requires Valid(st) && Paired(chunk)
    ensures forall l :: l in Push(cap, st, chunk).out.lines ==> GoodLine(l)
  {
    var x := Begin(st.bomConsumed, st.atEof, st.eofPendingCr, chunk).text;
    BeginPaired(st.bomConsumed, st.atEof, st.eofPendingCr, chunk);
    var r := Resume(st.body, x);
    if r.Continue? {
      assert Paired(r.text) by {
        if st.body.skipping {
          PairedPrefixUnit(st.body, x);
          PairedSlices(Pending(st.body) + x, IndexOfLf(Pending(st.body) + x) + 1);
        } else {
          PairedConcat(st.body.buf, x);
        }
      }
      LinesAreGood(r.text);
    }
  }
}
