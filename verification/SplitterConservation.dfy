/** Nothing is lost or counted twice: over any interleaving of the splitter's operations, the bytes it has
    reported and the bytes it holds are the bytes it was given. */
module SplitterConservation {
  import opened Collections
  import opened Utf16
  import opened SplitterSpec
  import Laws = SplitterLaws
  import Ingest = IngestSpec

  datatype Op = Give(text: Text) | TakeCheckpoint | Finalize(accept: Text -> bool) | End

  /** A splitter, the text it was given, and the bytes it reported: leading, line, terminator, dropped and
      checkpointed bytes. */
  datatype Books = Books(splitter: State, given: Text, reported: nat)

  function BytesOfLines(lines: seq<SplitLine>): nat {
    if |lines| == 0 then 0 else lines[0].byteLength + lines[0].terminatorBytes + BytesOfLines(lines[1..])
  }

  function Step(cap: nat, b: Books, op: Op): Books {
    match op
    case Give(text) =>
      var p := Push(cap, b.splitter, text);
      Books(p.state, b.given + text, b.reported + p.out.leading + BytesOfLines(p.out.lines) + Ingest.DropBytes(p.out.drops))
    case TakeCheckpoint =>
      var (st, bytes) := Checkpoint(b.splitter);
      Books(st, b.given, b.reported + bytes)
    case Finalize(accept) =>
      var (st, lines) := FinalizeIf(b.splitter, accept);
      Books(st, b.given, b.reported + BytesOfLines(lines))
    case End =>
      var (st, drops) := EndOfInput(b.splitter);
      Books(st, b.given, b.reported + Ingest.DropBytes(drops))
  }

  function Run(cap: nat, ops: seq<Op>): Books {
    if |ops| == 0 then Books(FRESH, [], 0) else Step(cap, Run(cap, ops[..|ops| - 1]), ops[|ops| - 1])
  }

  /** The bytes a splitter holds: its buffer, the accumulator of a discarded line, either pending CR. */
  function HeldBytes(st: State): nat {
    if st.eofPendingCr then 1
    else if st.body.skipping then st.body.skipBytes + |Pending(st.body)|
    else ByteCount(st.body.buf)
  }

  ghost predicate Conserved(b: Books) {
    && Valid(b.splitter) && Paired(b.given)
    && ByteCount(b.given) == b.reported + HeldBytes(b.splitter)
  }

  /** Whatever text a splitter holds back, its size is known. */
  lemma HeldTextBytes(st: State, held: Text)
    requires Valid(st) && Ingest.Holds(st, held)
    ensures Paired(held) && ByteCount(held) == HeldBytes(st)
  {
    if st.eofPendingCr {
      CrIsOneByte();
    } else if st.body.skipping {
      Ingest.CountedAndPending(st.body, held);
      WithPending(st.body, Ingest.CountedPart(st.body, held));
    }
  }

  lemma CrIsOneByte()
    ensures Paired([CR]) && ByteCount([CR]) == 1
  {
    assert ByteCount([CR][1..]) == 0;
  }

  lemma WithPending(b: Body, u: Text)
    requires Paired(u)
    ensures Paired(u + Pending(b)) && ByteCount(u + Pending(b)) == ByteCount(u) + |Pending(b)|
  {
    if b.skipPendingCr {
      CrIsOneByte();
      PairedConcat(u, [CR]);
      ByteCountConcat(u, [CR]);
    } else {
      assert u + [] == u;
    }
  }

  /** Some text of that size is held back. */
  lemma HoldsSome(st: State) returns (held: Text)
    requires Valid(st)
    ensures Ingest.Holds(st, held)
  {
    if st.eofPendingCr {
      held := [CR];
    } else if st.body.skipping {
      var u := Filler(st.body.skipBytes);
      held := u + Pending(st.body);
      assert st.body.skipPendingCr ==> DropLast(held) == u;
      assert !st.body.skipPendingCr ==> held == u;
    } else {
      held := st.body.buf;
    }
  }

  lemma {:induction false} Filler(n: nat) returns (u: Text)
    ensures Paired(u) && ByteCount(u) == n
    decreases n
  {
    u := [];
    if n > 0 {
      var rest := Filler(n - 1);
      u := [0x20] + rest;
      assert u[1..] == rest;
    }
  }

  lemma {:induction false} RejoinPaired(lines: seq<SplitLine>)
    requires forall i :: 0 <= i < |lines| ==> Ingest.GoodLine(lines[i])
    ensures Paired(Laws.Rejoin(lines))
    decreases |lines|
  {
    if |lines| == 0 {
      NoBytes(Laws.Rejoin(lines));
    } else {
      RestAreGood(lines);
      RejoinPaired(lines[1..]);
      FirstLineBytes(lines);
    }
  }

  lemma {:induction false} RejoinBytes(lines: seq<SplitLine>)
    requires forall i :: 0 <= i < |lines| ==> Ingest.GoodLine(lines[i])
    ensures ByteCount(Laws.Rejoin(lines)) == BytesOfLines(lines)
    decreases |lines|
  {
    if |lines| == 0 {
      NoBytes(Laws.Rejoin(lines));
    } else {
      RestAreGood(lines);
      RejoinPaired(lines[1..]);
      RejoinBytes(lines[1..]);
      FirstLineBytes(lines);
    }
  }

  lemma NoBytes(t: Text)
    requires |t| == 0
    ensures Paired(t) && ByteCount(t) == 0
  {
  }

  lemma RestAreGood(lines: seq<SplitLine>)
    requires |lines| > 0 && forall i :: 0 <= i < |lines| ==> Ingest.GoodLine(lines[i])
    ensures forall i :: 0 <= i < |lines[1..]| ==> Ingest.GoodLine(lines[1..][i])
  {
    forall i | 0 <= i < |lines[1..]| ensures Ingest.GoodLine(lines[1..][i]) {
      assert lines[1..][i] == lines[i + 1];
    }
  }

  lemma FirstLineBytes(lines: seq<SplitLine>)
    requires |lines| > 0 && Ingest.GoodLine(lines[0]) && Paired(Laws.Rejoin(lines[1..]))
    ensures Paired(Laws.Rejoin(lines))
    ensures ByteCount(Laws.Rejoin(lines)) + BytesOfLines(lines[1..]) == BytesOfLines(lines) + ByteCount(Laws.Rejoin(lines[1..]))
  {
    Ingest.LineTextBytes(lines[0]);
    TwoTexts(lines[0].text + Laws.Terminator(lines[0].terminatorBytes), Laws.Rejoin(lines[1..]));
  }

  lemma TwoTexts(a: Text, b: Text)
    requires Paired(a) && Paired(b)
    ensures Paired(a + b) && ByteCount(a + b) == ByteCount(a) + ByteCount(b)
  {
    PairedConcat(a, b);
    ByteCountConcat(a, b);
  }

  lemma GiveConserves(cap: nat, b: Books, text: Text)
    requires Conserved(b) && Paired(text)
    ensures Conserved(Step(cap, b, Give(text)))
  {
    var held := HoldsSome(b.splitter);
    HeldTextBytes(b.splitter, held);
    PushKeepsValid(cap, b.splitter, text);
    var p := Push(cap, b.splitter, text);
    var gap, kept := Ingest.PushReports(cap, b.splitter, held, text);
    HeldTextBytes(p.state, kept);
    Ingest.PushLinesAreGood(cap, b.splitter, text);
    RejoinPaired(p.out.lines);
    RejoinBytes(p.out.lines);
    ReportBytes(gap, Laws.Rejoin(p.out.lines), kept);
    ByteCountConcat(held, text);
    TwoTexts(b.given, text);
  }

  lemma ReportBytes(gap: Text, lines: Text, kept: Text)
    requires Paired(gap) && Paired(lines)
    ensures ByteCount(gap + (lines + kept)) == ByteCount(gap) + ByteCount(lines) + ByteCount(kept)
  {
    ByteCountConcat(gap, lines + kept);
    ByteCountConcat(lines, kept);
  }

  lemma EndConserves(cap: nat, b: Books)
    requires Conserved(b)
    ensures Conserved(Step(cap, b, End))
  {
    if b.splitter.body.skipping {
      var dropped := HeldBytes(b.splitter);
      assert [Drop(dropped, 0)][1..] == [] && Ingest.DropBytes([]) == 0;
      assert ByteCount([]) == 0;
    }
  }

  lemma FinalizeConserves(cap: nat, b: Books, accept: Text -> bool)
    requires Conserved(b)
    ensures Conserved(Step(cap, b, Finalize(accept)))
  {
    var buf := b.splitter.body.buf;
    if |buf| > 0 && accept(buf) {
      var line := SplitLine(buf, ByteCount(buf), 0);
      assert FinalizeIf(b.splitter, accept).1 == [line];
      assert [line][1..] == [] && BytesOfLines([line]) == ByteCount(buf);
      assert ByteCount([]) == 0;
    }
  }

  lemma StepConserves(cap: nat, b: Books, op: Op)
    requires Conserved(b) && (op.Give? ==> Paired(op.text))
    ensures Conserved(Step(cap, b, op))
  {
    match op {
      case Give(text) => GiveConserves(cap, b, text);
      case TakeCheckpoint =>
      case Finalize(accept) => FinalizeConserves(cap, b, accept);
      case End => EndConserves(cap, b);
    }
  }

  /** Byte conservation: for any interleaving of pushes, checkpoints, finalizations and ends of input, the
      UTF-8 octets pushed are those reported plus those still held. */
  lemma {:induction false} EveryByteIsAccountedFor(cap: nat, ops: seq<Op>)
    requires forall op :: op in ops && op.Give? ==> Paired(op.text)
    ensures Conserved(Run(cap, ops))
    ensures var b := Run(cap, ops); Utf8Length(b.given) == b.reported + HeldBytes(b.splitter)
    decreases |ops|
  {
    if |ops| > 0 {
      EveryByteIsAccountedFor(cap, ops[..|ops| - 1]);
      StepConserves(cap, Run(cap, ops[..|ops| - 1]), ops[|ops| - 1]);
    }
    ByteCountIsUtf8(Run(cap, ops).given);
  }

  /** What each operation leaves unreported: an end of input only a buffered tail or the CR of a late terminator, a
      checkpoint of a discarded line only its pending CR, a finalization no tail that is accepted. */
  lemma LittleStaysHeld(cap: nat, ops: seq<Op>, op: Op)
    requires forall o :: o in ops && o.Give? ==> Paired(o.text)
    requires !op.Give?
    ensures
      var b := Run(cap, ops + [op]);
      && Utf8Length(b.given) == b.reported + HeldBytes(b.splitter)
      && match op
         case End => HeldBytes(b.splitter) == if b.splitter.eofPendingCr then 1 else Utf8Length(b.splitter.body.buf)
         case TakeCheckpoint => b.splitter.body.skipping ==> HeldBytes(b.splitter) <= 1
         case Finalize(accept) => |b.splitter.body.buf| == 0 || !accept(b.splitter.body.buf)
         case _ => true
  {
    var all := ops + [op];
    assert all[..|ops|] == ops && forall o :: o in all && o.Give? ==> o in ops;
    EveryByteIsAccountedFor(cap, ops);
    EveryByteIsAccountedFor(cap, all);
    var st := Run(cap, all).splitter;
    if op.End? { ByteCountIsUtf8(st.body.buf); }
  }
}
