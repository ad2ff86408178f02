/** How pushes compose: chunk boundaries matter exactly when an oversized tail was already given up. */
module SplitterLaws {
  import opened Collections
  import opened Utf16
  import opened SplitterSpec

  // ---------- each stage is a transducer ----------

  lemma DropTerminatorSplit(atEof: bool, pendingCr: bool, a: Text, b: Text)
    requires pendingCr ==> atEof
    ensures
      var one := DropTerminator(atEof, pendingCr, a + b);
      var first := DropTerminator(atEof, pendingCr, a);
      var second := DropTerminator(first.atEof, first.pendingCr, b);
      && one.atEof == second.atEof && one.pendingCr == second.pendingCr
      && one.text == first.text + second.text
      && one.bytes == first.bytes + second.bytes
  {
    if pendingCr {
      Assoc([CR], a, b);
      SwallowSplit([CR] + a, b);
    } else if atEof {
      SwallowSplit(a, b);
    }
  }

  lemma SwallowSplit(t: Text, b: Text)
    ensures
      var one := DropTerminator(true, false, t + b);
      var first := DropTerminator(true, false, t);
      var second := DropTerminator(first.atEof, first.pendingCr, b);
      && one.atEof == second.atEof && one.pendingCr == second.pendingCr
      && one.text == first.text + second.text
      && one.bytes == first.bytes + second.bytes
  {
    if |t| == 0 {
      assert t == [] && t + b == b;
    } else if |t| == 1 && t[0] == CR {
      assert t == [CR];
    } else if t[0] == CR && t[1] == LF {
      assert (t + b)[2..] == t[2..] + b;
    } else if t[0] == LF {
      assert (t + b)[1..] == t[1..] + b;
    }
  }

  lemma StripBomSplit(consumed: bool, a: Text, b: Text)
    ensures
      var one := StripBom(consumed, a + b);
      var first := StripBom(consumed, a);
      var second := StripBom(first.consumed, b);
      && one.consumed == second.consumed
      && one.text == first.text + second.text
      && one.bytes == first.bytes + second.bytes
  {
    if |a| == 0 {
      assert a + b == b;
    } else {
      assert (a + b)[1..] == a[1..] + b;
    }
  }

  /** `IndexOfLf` finds the first LF. */
  lemma {:induction false} IndexOfLfIsFirst(s: Text)
    ensures forall k :: 0 <= k < IndexOfLf(s) ==> s[k] != LF
    ensures HasLf(s) <==> LF in s
  {
    if |s| > 0 && s[0] != LF {
      IndexOfLfIsFirst(s[1..]);
      forall k | 0 <= k < IndexOfLf(s) ensures s[k] != LF {
        if k > 0 { assert s[k] == s[1..][k - 1]; }
      }
      assert s == [s[0]] + s[1..];
    }
  }

  lemma {:induction false} IndexOfLfConcat(u: Text, y: Text)
    ensures IndexOfLf(u + y) == if HasLf(u) then IndexOfLf(u) else |u| + IndexOfLf(y)
  {
    if |u| == 0 {
      assert u + y == y;
    } else {
      assert (u + y)[1..] == u[1..] + y;
      IndexOfLfConcat(u[1..], y);
    }
  }

  lemma {:induction false} LinesConcat(a: Text, b: Text)
    ensures Lines(a + b) == Lines(a) + Lines(Tail(a) + b)
    ensures Tail(a + b) == Tail(Tail(a) + b)
    decreases |a|
  {
    if HasLf(a) {
      var i := IndexOfLf(a);
      FirstLineOfConcat(a, b, i);
      LinesConcat(a[i + 1..], b);
      PrependLine(LineOf(a[..i]), Lines(a[i + 1..]), Lines(Tail(a) + b));
    }
  }

  lemma FirstLineOfConcat(a: Text, b: Text, i: nat)
    requires i == IndexOfLf(a) && i < |a|
    ensures Lines(a + b) == [LineOf(a[..i])] + Lines(a[i + 1..] + b)
    ensures Tail(a + b) == Tail(a[i + 1..] + b)
  {
    IndexOfLfConcat(a, b);
    var s := a + b;
    assert s[..i] == a[..i] && s[i + 1..] == a[i + 1..] + b;
  }

  lemma PrependLine(line: SplitLine, lines: seq<SplitLine>, more: seq<SplitLine>)
    ensures [line] + (lines + more) == ([line] + lines) + more
  {
  }

  lemma CountedConcat(u: Text, rest: Text)
    requires Paired(u) && |rest| > 0
    ensures EndsWithCr(u + rest) == EndsWithCr(rest)
    ensures Counted(u + rest) == u + Counted(rest)
    ensures ByteCount(Counted(u + rest)) == ByteCount(u) + ByteCount(Counted(rest))
  {
    assert (u + rest)[|u + rest| - 1] == rest[|rest| - 1];
    if EndsWithCr(rest) {
      assert DropLast(u + rest) == u + DropLast(rest);
    }
    ByteCountConcat(u, Counted(rest));
  }

  /** The content an oversized line continues with only adds up. */
  lemma LineOfSplit(u: Text, x: Text)
    requires Paired(u) && (x == [] ==> !EndsWithCr(u))
    ensures LineOf(u + x) == SplitLine(u + LineOf(x).text, ByteCount(u) + LineOf(x).byteLength, LineOf(x).terminatorBytes)
  {
    if |x| == 0 {
      assert u + x == u;
      assert u + Counted(x) == u;
    } else {
      CountedConcat(u, x);
    }
  }

  lemma SkipCounts(bytes: nat, t: Text)
    requires Paired(t)
    ensures Counted(t) + Pending(Skip(bytes, t)) == t
    ensures Paired(Counted(t))
  {
    if EndsWithCr(t) {
      assert t == DropLast(t) + [CR];
      forall j | 0 <= j < |t| - 1 && IsHigh(t[j]) ensures j + 1 < |t| - 1 && IsLow(t[j + 1]) {
        assert !IsLow(CR);
      }
      assert Paired(DropLast(t));
    }
  }

  lemma SkipConcat(u: Text, rest: Text)
    requires Paired(u) && (|rest| == 0 ==> !EndsWithCr(u))
    ensures ByteCount(Counted(u + rest)) == ByteCount(u) + ByteCount(Counted(rest))
    ensures EndsWithCr(u + rest) == EndsWithCr(rest)
  {
    if |rest| == 0 {
      assert rest == [] && u + rest == u;
    } else {
      CountedConcat(u, rest);
    }
  }

  /** Discarding `t` and then receiving `s` is like receiving `t + s` while discarding. */
  lemma SkipThen(bytes: nat, t: Text, s: Text)
    requires Paired(t)
    ensures
      var b := Skip(bytes, t);
      Skip(b.skipBytes, Pending(b) + s) == Skip(bytes, t + s)
  {
    var u, pending := Counted(t), Pending(Skip(bytes, t));
    SkipCounts(bytes, t);
    Assoc(u, pending, s);
    SkipConcat(u, pending + s);
  }

  // ---------- the body ----------

  lemma NoLfLines(s: Text)
    requires !HasLf(s)
    ensures Lines(s) == [] && Tail(s) == s
  {
  }

  lemma SkippingGoesOn(cap: nat, bytes: nat, t: Text, y: Text)
    requires Paired(t) && !HasLf(y)
    ensures SplitBody(cap, Skip(bytes, t), y) == BodyStep(Skip(bytes, t + y), None, [])
  {
    IndexOfLfConcat(Pending(Skip(bytes, t)), y);
    SkipThen(bytes, t, y);
  }

  /** Where the first LF of `u + y` cuts it. */
  lemma CutAtLf(u: Text, y: Text)
    requires HasLf(u) || HasLf(y)
    ensures
      var i := IndexOfLf(u + y);
      && HasLf(u + y)
      && (u + y)[..i] == (if HasLf(u) then u[..IndexOfLf(u)] else u + y[..IndexOfLf(y)])
      && (u + y)[i + 1..] == (if HasLf(u) then u[IndexOfLf(u) + 1..] + y else y[IndexOfLf(y) + 1..])
  {
    IndexOfLfConcat(u, y);
  }

  lemma ResumeFields(b: Body, s: Text, t: Text)
    requires b.skipping && t == Pending(b) + s && HasLf(t)
    ensures Resume(b, s).Continue?
    ensures Resume(b, s).ended == Some(DropOf(b.skipBytes, LineOf(t[..IndexOfLf(t)])))
    ensures Resume(b, s).text == t[IndexOfLf(t) + 1..]
  {
  }

  /** The line content after `t`, measured from what `Skip` has counted of `t`. */
  lemma LineAfterSkip(bytes: nat, t: Text, x: Text)
    requires Paired(t)
    ensures DropOf(Skip(bytes, t).skipBytes, LineOf(Pending(Skip(bytes, t)) + x)) == DropOf(bytes, LineOf(t + x))
  {
    var u := Counted(t);
    var pending := Pending(Skip(bytes, t));
    SkipCounts(bytes, t);
    assert u + (pending + x) == t + x by {
      assert u + (pending + x) == (u + pending) + x;
    }
    assert pending + x == [] ==> pending == [];
    LineOfSplit(u, pending + x);
  }

  /** An oversized line that ends in `y` is reported with all its bytes, wherever it was cut. */
  lemma SkippingEnds(bytes: nat, t: Text, y: Text)
    requires Paired(t) && HasLf(y)
    ensures
      var r := Resume(Skip(bytes, t), y);
      var j := IndexOfLf(y);
      r.Continue? && r.ended == Some(DropOf(bytes, LineOf(t + y[..j]))) && r.text == y[j + 1..]
  {
    var b := Skip(bytes, t);
    CutAtLf(Pending(b), y);
    ResumeFields(b, y, Pending(b) + y);
    LineAfterSkip(bytes, t, y[..IndexOfLf(y)]);
  }

  /** Splitting a text in two steps. */
  lemma SplitTextSplit(cap: nat, t: Text, y: Text)
    requires Paired(t)
    ensures
      var step := SplitBody(cap, Keep(cap, Tail(t)), y);
      if |Tail(t)| <= cap || !HasLf(y) then
        && Keep(cap, Tail(t + y)) == step.body
        && Lines(t + y) == Lines(t) + step.lines
        && step.ended.None?
      else step.ended.Some?
  {
    var tail := Tail(t);
    LinesConcat(t, y);
    TailPaired(t);
    if |tail| > cap {
      if HasLf(y) {
        SkippingEnds(0, tail, y);
      } else {
        SkippingGoesOn(cap, 0, tail, y);
        IndexOfLfConcat(tail, y);
        NoLfLines(tail + y);
      }
    }
  }

  /** The step `one` is `first` and then `second`. */
  ghost predicate InTwo(one: BodyStep, first: BodyStep, second: BodyStep) {
    && one.body == second.body
    && Drops(one.ended) == Drops(first.ended) + Drops(second.ended)
    && one.lines == first.lines + second.lines
  }

  /** One push of `x + y` into the body against `x` and then `y`. */
  ghost predicate BodySplits(cap: nat, b: Body, x: Text, y: Text) {
    var one := SplitBody(cap, b, x + y);
    var first := SplitBody(cap, b, x);
    var second := SplitBody(cap, first.body, y);
    if !OverflowsBody(cap, b, x) || !HasLf(y) then InTwo(one, first, second)
    else |Drops(one.ended)| != |Drops(first.ended)| + |Drops(second.ended)|
  }

  lemma SplitBodySplit(cap: nat, b: Body, x: Text, y: Text)
    requires ValidBody(b) && Paired(x)
    ensures BodySplits(cap, b, x, y)
  {
    var t := Pending(b) + x;
    if !b.skipping {
      PairedConcat(b.buf, x);
      assert b.buf + (x + y) == b.buf + x + y;
      SplitContinued(cap, b, x, y);
    } else if HasLf(t) {
      SplitEnding(cap, b, t, x, y);
    } else {
      SplitDiscarding(cap, b, t, x, y);
    }
  }

  lemma SplitEnding(cap: nat, b: Body, t: Text, x: Text, y: Text)
    requires b.skipping && Paired(x) && t == Pending(b) + x && HasLf(t)
    ensures BodySplits(cap, b, x, y)
  {
    PairedPrefixUnit(b, x);
    PairedSlices(t, IndexOfLf(t) + 1);
    ResumeFields(b, x, t);
    EndsInFirst(b, t, x, y);
    SplitContinued(cap, b, x, y);
  }

  lemma SplitContinued(cap: nat, b: Body, x: Text, y: Text)
    requires Resume(b, x).Continue? && Resume(b, x + y).Continue?
    requires Resume(b, x + y).ended == Resume(b, x).ended
    requires Resume(b, x + y).text == Resume(b, x).text + y
    requires Paired(Resume(b, x).text)
    ensures BodySplits(cap, b, x, y)
  {
    ContinuedStep(cap, b, x);
    ContinuedStep(cap, b, x + y);
    SplitTextSplit(cap, Resume(b, x).text, y);
  }

  lemma ContinuedStep(cap: nat, b: Body, s: Text)
    requires Resume(b, s).Continue?
    ensures
      var t := Resume(b, s).text;
      && SplitBody(cap, b, s) == BodyStep(Keep(cap, Tail(t)), Resume(b, s).ended, Lines(t))
      && (OverflowsBody(cap, b, s) <==> |Tail(t)| > cap)
  {
  }

  lemma SplitDiscarding(cap: nat, b: Body, t: Text, x: Text, y: Text)
    requires ValidBody(b) && b.skipping && Paired(x) && t == Pending(b) + x && !HasLf(t)
    ensures BodySplits(cap, b, x, y)
  {
    PairedPrefixUnit(b, x);
    Assoc(Pending(b), x, y);
    EndsLater(cap, b, x + y, t, y);
    DiscardingStep(cap, b, t, x);
    NothingFirst(SplitBody(cap, b, x + y), SplitBody(cap, b, x), SplitBody(cap, Skip(b.skipBytes, t), y));
  }

  lemma NothingFirst(one: BodyStep, first: BodyStep, second: BodyStep)
    requires first.ended.None? && |first.lines| == 0
    requires one.body == second.body && one.ended == second.ended && one.lines == second.lines
    ensures InTwo(one, first, second)
  {
    assert first.lines == [] && Drops(first.ended) == [];
  }

  lemma DiscardingStep(cap: nat, b: Body, t: Text, x: Text)
    requires b.skipping && t == Pending(b) + x && !HasLf(t)
    ensures SplitBody(cap, b, x) == BodyStep(Skip(b.skipBytes, t), None, []) && !OverflowsBody(cap, b, x)
  {
  }

  lemma EndsLater(cap: nat, b: Body, s: Text, t: Text, y: Text)
    requires b.skipping && t + y == Pending(b) + s && !HasLf(t) && Paired(t)
    ensures
      var one := SplitBody(cap, b, s);
      var second := SplitBody(cap, Skip(b.skipBytes, t), y);
      one.body == second.body && one.ended == second.ended && one.lines == second.lines
  {
    if HasLf(y) {
      EndsInSecond(b, s, t, y);
      SkippingEnds(b.skipBytes, t, y);
    } else {
      IndexOfLfConcat(t, y);
      SkippingGoesOn(cap, b.skipBytes, t, y);
    }
  }

  lemma EndsInFirst(b: Body, t: Text, x: Text, y: Text)
    requires b.skipping && t == Pending(b) + x && HasLf(t)
    ensures Resume(b, x + y).Continue? && Resume(b, x).Continue?
    ensures Resume(b, x + y).ended == Resume(b, x).ended
    ensures Resume(b, x + y).text == Resume(b, x).text + y
  {
    assert Pending(b) + (x + y) == t + y;
    CutAtLf(t, y);
    ResumeFields(b, x, t);
    ResumeFields(b, x + y, t + y);
  }

  lemma EndsInSecond(b: Body, s: Text, t: Text, y: Text)
    requires b.skipping && t + y == Pending(b) + s && !HasLf(t) && HasLf(y)
    ensures
      var r := Resume(b, s);
      r.Continue? && r.ended == Some(DropOf(b.skipBytes, LineOf(t + y[..IndexOfLf(y)]))) && r.text == y[IndexOfLf(y) + 1..]
  {
    CutAtLf(t, y);
    ResumeFields(b, s, t + y);
  }

  // ---------- the theorem ----------

  /** Pushing a text in one chunk or cut in two is the same, state and report alike, exactly when the
      first part does not overflow or the second part does not end the line. */
  lemma PushSplit(cap: nat, st: State, a: Text, b: Text)
    requires Valid(st) && |st.body.buf| <= cap && Paired(a)
    ensures
      var first := Push(cap, st, a);
      var second := Push(cap, first.state, b);
      Push(cap, st, a + b) == Pushed(second.state, first.out.Then(second.out)) <==> !Overflows(cap, st, a) || LF !in b
  {
    var first := Push(cap, st, a);
    var second := Push(cap, first.state, b);
    IndexOfLfIsFirst(b);
    BodiesOfPushSplit(cap, st, a, b);
    SamePush(Push(cap, st, a + b), first, second);
  }

  /** When one push is two: same state, and the reports one after the other. */
  lemma SamePush(one: Pushed, first: Pushed, second: Pushed)
    ensures
      one == Pushed(second.state, first.out.Then(second.out)) <==>
      (one.state == second.state && one.out.drops == first.out.drops + second.out.drops
       && one.out.leading == first.out.leading + second.out.leading && one.out.lines == first.out.lines + second.out.lines)
  {
  }

  lemma BodiesOfPushSplit(cap: nat, st: State, a: Text, b: Text)
    requires Valid(st) && |st.body.buf| <= cap && Paired(a)
    ensures
      var one := Push(cap, st, a + b);
      var first := Push(cap, st, a);
      var second := Push(cap, first.state, b);
      if !Overflows(cap, st, a) || !HasLf(b) then
        && one.state == second.state
        && one.out.drops == first.out.drops + second.out.drops
        && one.out.leading == first.out.leading + second.out.leading
        && one.out.lines == first.out.lines + second.out.lines
      else
        |one.out.drops| != |first.out.drops| + |second.out.drops|
  {
    var x := Begin(st.bomConsumed, st.atEof, st.eofPendingCr, a);
    BeginPaired(st.bomConsumed, st.atEof, st.eofPendingCr, a);
    BeginSplit(st.bomConsumed, st.atEof, st.eofPendingCr, a, b);
    SplitBodySplit(cap, st.body, x.text, Begin(x.bomConsumed, x.atEof, x.eofPendingCr, b).text);
    if OverflowsBody(cap, st.body, x.text) {
      OverflowNeedsText(cap, st.body, x.text);
    } else {
      assert BodySplits(cap, st.body, x.text, Begin(x.bomConsumed, x.atEof, x.eofPendingCr, b).text);
    }
  }

  /** How two pushes line up with one before the body is reached. */
  lemma BeginSplit(bomConsumed: bool, atEof: bool, eofPendingCr: bool, a: Text, b: Text)
    requires eofPendingCr ==> atEof
    requires atEof ==> bomConsumed
    ensures
      var one := Begin(bomConsumed, atEof, eofPendingCr, a + b);
      var first := Begin(bomConsumed, atEof, eofPendingCr, a);
      var second := Begin(first.bomConsumed, first.atEof, first.eofPendingCr, b);
      && one.bomConsumed == second.bomConsumed && one.atEof == second.atEof && one.eofPendingCr == second.eofPendingCr
      && one.text == first.text + second.text
      && one.bytes == first.bytes + second.bytes
      && (|first.text| > 0 ==> second.text == b)
  {
    if atEof {
      DropTerminatorSplit(atEof, eofPendingCr, a, b);
    } else {
      StripBomSplit(bomConsumed, a, b);
    }
  }

  lemma OverflowNeedsText(cap: nat, b: Body, s: Text)
    requires ValidBody(b) && |b.buf| <= cap && OverflowsBody(cap, b, s)
    ensures |s| > 0
  {
    if b.skipping {
      IndexOfLfConcat(Pending(b), s);
    } else {
      NoLfLines(b.buf);
      assert s == [] ==> b.buf + s == b.buf;
    }
  }

  // ---------- any chunking ----------

  function Concat(chunks: seq<Text>): Text {
    if |chunks| == 0 then [] else chunks[0] + Concat(chunks[1..])
  }

  function PushAll(cap: nat, st: State, chunks: seq<Text>): Pushed
    decreases |chunks|
  {
    if |chunks| == 0 then Pushed(st, Output([], 0, []))
    else
      var first := Push(cap, st, chunks[0]);
      var rest := PushAll(cap, first.state, chunks[1..]);
      Pushed(rest.state, first.out.Then(rest.out))
  }

  /** No line of `s` is longer than the cap, counting its CR. */
  ghost predicate LinesFit(cap: nat, s: Text) {
    forall i, j :: 0 <= i <= j <= |s| && LF !in s[i..j] ==> j - i <= cap
  }

  /** The text `st` will have split once `text` has arrived. */
  function Upcoming(st: State, text: Text): Text {
    st.body.buf + Begin(st.bomConsumed, st.atEof, st.eofPendingCr, text).text
  }

  /** However a text is cut into chunks, a splitter that is not discarding treats it as one push, as long
      as its lines fit. */
  lemma {:induction false} PushAllIsPush(cap: nat, st: State, chunks: seq<Text>)
    requires Valid(st) && !st.body.skipping && |st.body.buf| <= cap
    requires forall c :: c in chunks ==> Paired(c)
    requires LinesFit(cap, Upcoming(st, Concat(chunks)))
    ensures PushAll(cap, st, chunks) == Push(cap, st, Concat(chunks))
    decreases |chunks|
  {
    if |chunks| == 0 {
      PushNothing(cap, st);
    } else {
      var a, b := chunks[0], Concat(chunks[1..]);
      var first := Push(cap, st, a);
      UpcomingAfter(cap, st, a, b);
      PushSplit(cap, st, a, b);
      PushKeepsValid(cap, st, a);
      PushAllIsPush(cap, first.state, chunks[1..]);
    }
  }

  lemma PushNothing(cap: nat, st: State)
    requires Valid(st) && |st.body.buf| <= cap
    ensures Push(cap, st, []) == Pushed(st, Output([], 0, []))
  {
    var b := st.body;
    if b.skipping {
      IndexOfLfConcat(Pending(b), []);
      assert Pending(b) + [] == Pending(b);
    } else {
      assert b.buf + [] == b.buf;
      NoLfLines(b.buf);
    }
  }

  lemma UpcomingAfter(cap: nat, st: State, a: Text, b: Text)
    requires Valid(st) && !st.body.skipping && LinesFit(cap, Upcoming(st, a + b))
    ensures !Overflows(cap, st, a)
    ensures var st1 := Push(cap, st, a).state; !st1.body.skipping && |st1.body.buf| <= cap && LinesFit(cap, Upcoming(st1, b))
  {
    var t := Upcoming(st, a);
    var x := Begin(st.bomConsumed, st.atEof, st.eofPendingCr, a);
    var y := Begin(x.bomConsumed, x.atEof, x.eofPendingCr, b).text;
    BeginSplit(st.bomConsumed, st.atEof, st.eofPendingCr, a, b);
    Assoc(st.body.buf, x.text, y);
    TailOfUpcoming(cap, t, y);
    ContinuedStep(cap, st.body, x.text);
  }

  lemma TailOfUpcoming(cap: nat, t: Text, y: Text)
    requires LinesFit(cap, t + y)
    ensures LinesFit(cap, Tail(t) + y) && |Tail(t)| <= cap
  {
    var k := |t| - |Tail(t)|;
    TailIsSuffix(t);
    LinesFitSuffix(cap, t + y, k);
    assert (t + y)[k..] == t[k..] + y;
    TailFits(cap, Tail(t), y);
  }

  lemma TailIsSuffix(s: Text)
    ensures Tail(s) == s[|s| - |Tail(s)|..]
    decreases |s|
  {
    if HasLf(s) {
      TailIsSuffix(s[IndexOfLf(s) + 1..]);
    }
  }

  lemma LinesFitSuffix(cap: nat, s: Text, k: nat)
    requires LinesFit(cap, s) && k <= |s|
    ensures LinesFit(cap, s[k..])
  {
    var t := s[k..];
    forall i, j | 0 <= i <= j <= |t| && LF !in t[i..j] ensures j - i <= cap {
      assert t[i..j] == s[k + i..k + j];
    }
  }

  lemma TailFits(cap: nat, u: Text, y: Text)
    requires LinesFit(cap, u + y) && !HasLf(u)
    ensures |u| <= cap
  {
    assert (u + y)[0..|u|] == u;
    IndexOfLfIsFirst(u);
  }

  // ---------- against the reference split ----------

  /** The text that named terminators put back. */
  function Rejoin(lines: seq<SplitLine>): Text {
    if |lines| == 0 then [] else lines[0].text + Terminator(lines[0].terminatorBytes) + Rejoin(lines[1..])
  }

  function Terminator(bytes: nat): Text {
    if bytes == 0 then [] else if bytes == 1 then [LF] else [CR, LF]
  }

  /** Splitting loses nothing. */
  lemma {:induction false} RejoinLines(s: Text)
    ensures Rejoin(Lines(s)) + Tail(s) == s
    decreases |s|
  {
    if HasLf(s) {
      var i := IndexOfLf(s);
      var rest := s[i + 1..];
      RejoinLines(rest);
      LineKeepsText(s[..i]);
      RejoinCons(LineOf(s[..i]), Lines(rest));
      Assoc(s[..i] + [LF], Rejoin(Lines(rest)), Tail(rest));
      CutAround(s, i);
    }
  }

  lemma Assoc(a: Text, b: Text, c: Text)
    ensures (a + b) + c == a + (b + c)
  {
  }

  lemma CutAround(s: Text, i: nat)
    requires i < |s| && s[i] == LF
    ensures (s[..i] + [LF]) + s[i + 1..] == s
  {
  }

  lemma RejoinCons(line: SplitLine, lines: seq<SplitLine>)
    ensures Rejoin([line] + lines) == line.text + Terminator(line.terminatorBytes) + Rejoin(lines)
  {
    assert ([line] + lines)[1..] == lines;
  }

  lemma LineKeepsText(u: Text)
    ensures LineOf(u).text + Terminator(LineOf(u).terminatorBytes) == u + [LF]
  {
    if EndsWithCr(u) { assert u == DropLast(u) + [CR]; }
  }

  /** From the start of a stream: any chunking gives the lines of the whole text without its byte order
      mark, nothing dropped, the unterminated rest in the buffer, and no information is lost. */
  lemma AnyChunking(cap: nat, chunks: seq<Text>)
    requires forall c :: c in chunks ==> Paired(c)
    requires LinesFit(cap, StripBom(false, Concat(chunks)).text)
    ensures
      var text := Concat(chunks);
      var bom := StripBom(false, text);
      var p := PushAll(cap, FRESH, chunks);
      && p.state == State(|text| > 0, false, false, Body(Tail(bom.text), false, 0, false))
      && p.out == Output([], bom.bytes, Lines(bom.text))
      && (if |text| > 0 && text[0] == BOM then [BOM] else []) + (Rejoin(p.out.lines) + p.state.body.buf) == text
  {
    var text := Concat(chunks);
    var s := StripBom(false, text).text;
    assert Upcoming(FRESH, text) == s;
    PushAllIsPush(cap, FRESH, chunks);
    PushFresh(cap, text);
    NothingLost(text);
  }

  lemma PushFresh(cap: nat, text: Text)
    requires LinesFit(cap, StripBom(false, text).text)
    ensures
      var bom := StripBom(false, text);
      var p := Push(cap, FRESH, text);
      && p.state == State(|text| > 0, false, false, Body(Tail(bom.text), false, 0, false))
      && p.out == Output([], bom.bytes, Lines(bom.text))
  {
    var s := StripBom(false, text).text;
    TailOfFitting(cap, s);
    assert FRESH.body.buf + s == s;
  }

  lemma NothingLost(text: Text)
    ensures
      var s := StripBom(false, text).text;
      (if |text| > 0 && text[0] == BOM then [BOM] else []) + (Rejoin(Lines(s)) + Tail(s)) == text
  {
    RejoinLines(StripBom(false, text).text);
  }

  lemma TailOfFitting(cap: nat, s: Text)
    requires LinesFit(cap, s)
    ensures |Tail(s)| <= cap
  {
    TailIsSuffix(s);
    IndexOfLfIsFirst(Tail(s));
    assert s[|s| - |Tail(s)|..|s|] == Tail(s);
  }

  /** A line emitted at end of file may still get its terminator later: one LF or CRLF that follows, in
      whatever chunks, is swallowed and adds no line. */
  lemma LateTerminator(cap: nat, st: State, chunks: seq<Text>, terminator: Text, rest: Text)
    requires Valid(st) && st.atEof && !st.eofPendingCr
    requires terminator == [LF] || terminator == [CR, LF]
    requires Concat(chunks) == terminator + rest
    requires forall c :: c in chunks ==> Paired(c)
    requires LinesFit(cap, rest)
    ensures
      var p := PushAll(cap, st, chunks);
      && p.out == Output([], |terminator|, Lines(rest))
      && p.state == State(true, false, false, Body(Tail(rest), false, 0, false))
  {
    var text := Concat(chunks);
    TerminatorFront(text, terminator, rest);
    assert st.body.buf + rest == rest;
    PushAllIsPush(cap, st, chunks);
    PushAfterTerminator(cap, st, text, rest, |terminator|);
  }

  lemma TerminatorFront(text: Text, terminator: Text, rest: Text)
    requires (terminator == [LF] || terminator == [CR, LF]) && text == terminator + rest
    ensures Begin(true, true, false, text) == Front(true, false, false, rest, |terminator|)
  {
    assert text[|terminator|..] == rest;
  }

  lemma PushAfterTerminator(cap: nat, st: State, text: Text, rest: Text, leading: nat)
    requires Valid(st) && st.atEof && !st.eofPendingCr && st.body.buf + rest == rest && LinesFit(cap, rest)
    requires Begin(true, true, false, text) == Front(true, false, false, rest, leading)
    ensures Push(cap, st, text) == Pushed(State(true, false, false, Body(Tail(rest), false, 0, false)), Output([], leading, Lines(rest)))
  {
    TailOfFitting(cap, rest);
  }

  /** A line of plain letters, one unit longer than the cap. */
  function LongLine(cap: nat): Text {
    seq(cap + 1, i => 0x61)
  }

  lemma {:induction false} LongLineBytes(line: Text)
    requires forall i :: 0 <= i < |line| ==> line[i] == 0x61
    ensures ByteCount(line) == |line| && IndexOfLf(line) == |line| && Paired(line)
  {
    if |line| > 0 { LongLineBytes(line[1..]); }
  }

  /** Discarding itself depends on the chunks, whatever the cap: this line is delivered whole when its LF is in
      the same chunk, and thrown away when the LF comes in a second one. */
  lemma SkippingIsNotChunkInvariant(cap: nat)
    ensures
      var line := LongLine(cap);
      var first := Push(cap, FRESH, line);
      var second := Push(cap, first.state, [LF]);
      && Push(cap, FRESH, line + [LF]).out == Output([], 0, [SplitLine(line, cap + 1, 1)])
      && first.out.Then(second.out) == Output([Drop(cap + 1, 1)], 0, [])
  {
    var line := LongLine(cap);
    LongLineBytes(line);
    LongLineWhole(cap, line);
    LongLineCut(cap, line);
  }

  lemma LongLineWhole(cap: nat, line: Text)
    requires |line| == cap + 1 && line[0] != BOM && !EndsWithCr(line) && !HasLf(line)
    ensures Push(cap, FRESH, line + [LF]).out == Output([], 0, [SplitLine(line, ByteCount(line), 1)])
  {
    var s := line + [LF];
    OneLine(line, s);
    assert FRESH.body.buf + s == s;
  }

  lemma OneLine(line: Text, s: Text)
    requires !HasLf(line) && s == line + [LF]
    ensures Lines(s) == [LineOf(line)] && Tail(s) == []
  {
    IndexOfLfConcat(line, [LF]);
    assert s[..|line|] == line && s[|line| + 1..] == [];
    NoLfLines([]);
  }

  lemma LongLineCut(cap: nat, line: Text)
    requires |line| == cap + 1 && line[0] != BOM && !EndsWithCr(line) && !HasLf(line)
    ensures
      var first := Push(cap, FRESH, line);
      var second := Push(cap, first.state, [LF]);
      first.out.Then(second.out) == Output([Drop(ByteCount(line), 1)], 0, [])
  {
    var first := Push(cap, FRESH, line);
    LongLineFirst(cap, line);
    LfEndsSkipping(cap, first.state, ByteCount(line));
    ThenDrop(first.out, Push(cap, first.state, [LF]).out, Drop(ByteCount(line), 1));
  }

  lemma ThenDrop(first: Output, second: Output, d: Drop)
    requires first == Output([], 0, []) && second == Output([d], 0, [])
    ensures first.Then(second) == second
  {
    assert [] + [d] == [d];
  }

  lemma LongLineFirst(cap: nat, line: Text)
    requires |line| == cap + 1 && line[0] != BOM && !EndsWithCr(line) && !HasLf(line)
    ensures Push(cap, FRESH, line) == Pushed(State(true, false, false, Body([], true, ByteCount(line), false)), Output([], 0, []))
  {
    assert FRESH.body.buf + line == line;
    NoLfLines(line);
  }

  lemma LfEndsSkipping(cap: nat, st: State, bytes: nat)
    requires st == State(true, false, false, Body([], true, bytes, false))
    ensures Push(cap, st, [LF]).out == Output([Drop(bytes, 1)], 0, [])
  {
    assert Pending(st.body) + [LF] == [LF] && [LF][..0] == [] && [LF][1..] == [];
    ResumeFields(st.body, [LF], [LF]);
    NoLfLines([]);
  }
}
