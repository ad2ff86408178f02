/** The streaming line splitter in tolerant mode: chunks of text in, complete lines out. */
module SplitterSpec {
  import opened Collections
  import opened Utf16

  /** The cap the program uses. It is compared with a number of code units, not of bytes; everything
      below holds for any cap. */
  const MAX_BUF_BYTES: nat := 16 * 1024 * 1024

  datatype SplitLine = SplitLine(text: Text, byteLength: nat, terminatorBytes: nat)

  /** One call of the oversized-line callback. */
  datatype Drop = Drop(bytes: nat, terminatorBytes: nat)

  /** Everything one push reports, callbacks included. */
  datatype Output = Output(drops: seq<Drop>, leading: nat, lines: seq<SplitLine>) {
    function Then(next: Output): Output {
      Output(drops + next.drops, leading + next.leading, lines + next.lines)
    }
  }

  /** The part of the state that holds line content: a partial line, or the byte count of an oversized
      line being discarded (a trailing CR is not counted until the next unit is known). */
  datatype Body = Body(buf: Text, skipping: bool, skipBytes: nat, skipPendingCr: bool)

  datatype State = State(bomConsumed: bool, atEof: bool, eofPendingCr: bool, body: Body)

  const FRESH_BODY := Body([], false, 0, false)
  const FRESH := State(false, false, false, FRESH_BODY)

  ghost predicate ValidBody(b: Body) {
    && Paired(b.buf) && !HasLf(b.buf)
    && (b.skipping ==> b.buf == [])
    && (!b.skipping ==> b.skipBytes == 0 && !b.skipPendingCr)
  }

  ghost predicate Valid(st: State) {
    && ValidBody(st.body)
    && (st.eofPendingCr ==> st.atEof)
    && (st.atEof ==> st.bomConsumed && st.body == FRESH_BODY)
    && (!st.bomConsumed ==> st.body == FRESH_BODY)
  }

  // ---------- lines of a whole text ----------

  /** Position of the first LF, or the length of `s` when there is none. */
  function IndexOfLf(s: Text): (i: nat)
    ensures i <= |s|
    ensures i < |s| ==> s[i] == LF
  {
    if |s| == 0 || s[0] == LF then 0 else 1 + IndexOfLf(s[1..])
  }

  predicate HasLf(s: Text) {
    IndexOfLf(s) < |s|
  }

  predicate EndsWithCr(s: Text) {
    |s| > 0 && s[|s| - 1] == CR
  }

  function DropLast(s: Text): Text
    requires |s| > 0
  {
    s[..|s| - 1]
  }

  /** The line whose content, up to but not including its LF, is `s`. */
  function LineOf(s: Text): SplitLine {
    SplitLine(Counted(s), ByteCount(Counted(s)), if EndsWithCr(s) then 2 else 1)
  }

  /** The complete lines of `s`. */
  function Lines(s: Text): seq<SplitLine>
    decreases |s|
  {
    if !HasLf(s) then [] else [LineOf(s[..IndexOfLf(s)])] + Lines(s[IndexOfLf(s) + 1..])
  }

  /** What follows the last LF of `s`. */
  function Tail(s: Text): (t: Text)
    ensures |t| <= |s| && !HasLf(t)
    decreases |s|
  {
    if !HasLf(s) then s else Tail(s[IndexOfLf(s) + 1..])
  }

  // ---------- one push ----------

  /** Result of swallowing the terminator that may follow a line already emitted at end of file. */
  datatype AfterEof = AfterEof(atEof: bool, pendingCr: bool, text: Text, bytes: nat)

  function DropTerminator(atEof: bool, pendingCr: bool, s: Text): AfterEof {
    if !atEof then AfterEof(atEof, pendingCr, s, 0)
    else
      var t := if pendingCr then [CR] + s else s;
      if |t| == 0 then AfterEof(true, false, [], 0)
      else if t == [CR] then AfterEof(true, true, [], 0)
      else if t[0] == CR && t[1] == LF then AfterEof(false, false, t[2..], 2)
      else if t[0] == LF then AfterEof(false, false, t[1..], 1)
      else AfterEof(false, false, t, 0)
  }

  /** Result of stripping the byte order mark that may open the stream. */
  datatype AfterBom = AfterBom(consumed: bool, text: Text, bytes: nat)

  function StripBom(consumed: bool, s: Text): AfterBom {
    if consumed || |s| == 0 then AfterBom(consumed, s, 0)
    else if s[0] == BOM then AfterBom(true, s[1..], 3)
    else AfterBom(true, s, 0)
  }

  /** The units of `t` that are counted at once when `t` is discarded: a trailing CR waits. */
  function Counted(t: Text): Text {
    if EndsWithCr(t) then DropLast(t) else t
  }

  /** Discarding `t` as part of an oversized line of which `bytes` are already discarded. */
  function Skip(bytes: nat, t: Text): Body {
    Body([], true, bytes + ByteCount(Counted(t)), EndsWithCr(t))
  }

  /** What a chunk does to a line being discarded: it goes on, or it ends (with the report `ended`) and
      `text` is to be split into lines. When no line is being discarded, `text` continues the buffer. */
  datatype Resumed = Discarding | Continue(ended: Option<Drop>, text: Text)

  function Resume(b: Body, s: Text): Resumed {
    if !b.skipping then Continue(None, b.buf + s)
    else
      var t := Pending(b) + s;
      var i := IndexOfLf(t);
      if i == |t| then Discarding
      else Continue(Some(DropOf(b.skipBytes, LineOf(t[..i]))), t[i + 1..])
  }

  function DropOf(bytes: nat, line: SplitLine): Drop {
    Drop(bytes + line.byteLength, line.terminatorBytes)
  }

  /** The unit a skipping body still holds. */
  function Pending(b: Body): Text {
    if b.skipPendingCr then [CR] else []
  }

  function Keep(cap: nat, tail: Text): Body {
    if |tail| > cap then Skip(0, tail) else Body(tail, false, 0, false)
  }

  /** What the start of a push settles: the flags, the text for the body, the leading bytes. */
  datatype Front = Front(bomConsumed: bool, atEof: bool, eofPendingCr: bool, text: Text, bytes: nat)

  function Begin(bomConsumed: bool, atEof: bool, eofPendingCr: bool, chunk: Text): Front {
    var eof := DropTerminator(atEof, eofPendingCr, chunk);
    var bom := StripBom(bomConsumed, eof.text);
    Front(bom.consumed, eof.atEof, eof.pendingCr, bom.text, eof.bytes + bom.bytes)
  }

  datatype BodyStep = BodyStep(body: Body, ended: Option<Drop>, lines: seq<SplitLine>)

  function SplitBody(cap: nat, b: Body, s: Text): BodyStep {
    match Resume(b, s)
    case Discarding => BodyStep(Skip(b.skipBytes, Pending(b) + s), None, [])
    case Continue(ended, t) => BodyStep(Keep(cap, Tail(t)), ended, Lines(t))
  }

  datatype Pushed = Pushed(state: State, out: Output)

  function Push(cap: nat, st: State, chunk: Text): Pushed {
    var front := Begin(st.bomConsumed, st.atEof, st.eofPendingCr, chunk);
    var step := SplitBody(cap, st.body, front.text);
    Pushed(State(front.bomConsumed, front.atEof, front.eofPendingCr, step.body),
           Output(Drops(step.ended), front.bytes, step.lines))
  }

  function Drops(ended: Option<Drop>): seq<Drop> {
    if ended.Some? then [ended.value] else []
  }

  /** The tail left by this push is longer than the cap, so the push enters the skipping state. */
  predicate Overflows(cap: nat, st: State, chunk: Text) {
    OverflowsBody(cap, st.body, Begin(st.bomConsumed, st.atEof, st.eofPendingCr, chunk).text)
  }

  predicate OverflowsBody(cap: nat, b: Body, s: Text) {
    match Resume(b, s)
    case Discarding => false
    case Continue(_, t) => |Tail(t)| > cap
  }

  // ---------- the other operations ----------

  function Checkpoint(st: State): (State, nat) {
    if !st.body.skipping then (st, 0)
    else (st.(body := st.body.(skipBytes := 0)), st.body.skipBytes)
  }

  function EndOfInput(st: State): (State, seq<Drop>) {
    if !st.body.skipping then (st, [])
    else
      var dropped := st.body.skipBytes + |Pending(st.body)|;
      (st.(body := FRESH_BODY), if dropped > 0 then [Drop(dropped, 0)] else [])
  }

  /** `accept` is the caller's verdict on the buffered text. */
  function FinalizeIf(st: State, accept: Text -> bool): (State, seq<SplitLine>) {
    if |st.body.buf| == 0 || !accept(st.body.buf) then (st, [])
    else
      (st.(atEof := true, body := st.body.(buf := [])),
       [SplitLine(st.body.buf, ByteCount(st.body.buf), 0)])
  }

  // ---------- validity ----------

  lemma TailPaired(s: Text)
    requires Paired(s)
    ensures Paired(Tail(s))
    decreases |s|
  {
    var i := IndexOfLf(s);
    if i < |s| {
      PairedSlices(s, i + 1);
      TailPaired(s[i + 1..]);
    }
  }

  lemma PairedPrefixUnit(b: Body, s: Text)
    requires Paired(s)
    ensures Paired(Pending(b) + s)
  {
    PairedConcat(Pending(b), s);
  }

  lemma PushKeepsValid(cap: nat, st: State, chunk: Text)
    requires Valid(st) && Paired(chunk)
    ensures Valid(Push(cap, st, chunk).state)
  {
    BeginPaired(st.bomConsumed, st.atEof, st.eofPendingCr, chunk);
    var front := Begin(st.bomConsumed, st.atEof, st.eofPendingCr, chunk);
    SplitBodyKeepsValid(cap, st.body, front.text);
    if front.atEof || !front.bomConsumed {
      assert front.text == [] && st.body == FRESH_BODY;
      SplitNothing(cap);
    }
  }

  lemma BeginPaired(bomConsumed: bool, atEof: bool, eofPendingCr: bool, chunk: Text)
    requires Paired(chunk)
    ensures Paired(Begin(bomConsumed, atEof, eofPendingCr, chunk).text)
  {
    DropTerminatorPaired(atEof, eofPendingCr, chunk);
    StripBomPaired(bomConsumed, DropTerminator(atEof, eofPendingCr, chunk).text);
  }

  lemma SplitNothing(cap: nat)
    ensures SplitBody(cap, FRESH_BODY, []) == BodyStep(FRESH_BODY, None, [])
  {
    assert FRESH_BODY.buf + [] == [];
  }

  lemma StripBomPaired(consumed: bool, s: Text)
    requires Paired(s)
    ensures Paired(StripBom(consumed, s).text)
  {
    if |s| > 0 && s[0] == BOM { PairedSlices(s, 1); }
  }

  lemma DropTerminatorPaired(atEof: bool, pendingCr: bool, s: Text)
    requires Paired(s)
    ensures Paired(DropTerminator(atEof, pendingCr, s).text)
  {
    var t := if pendingCr then [CR] + s else s;
    PairedConcat([CR], s);
    if |t| > 1 && t[0] == CR && t[1] == LF { PairedSlices(t, 2); }
    if |t| > 0 && t[0] == LF { PairedSlices(t, 1); }
  }

  lemma SplitBodyKeepsValid(cap: nat, b: Body, s: Text)
    requires ValidBody(b) && Paired(s)
    ensures ValidBody(SplitBody(cap, b, s).body)
  {
    var r := Resume(b, s);
    if r.Continue? {
      assert Paired(r.text) by {
        if b.skipping {
          PairedPrefixUnit(b, s);
          PairedSlices(Pending(b) + s, IndexOfLf(Pending(b) + s) + 1);
        } else {
          PairedConcat(b.buf, s);
        }
      }
      TailPaired(r.text);
    }
  }
}
