/** What a search returns while the log changes under it. */
module SearchLaws {
  import opened Utf16
  import opened SearchSpec

  // ---------- the cache tells the truth and keeps to its budget ----------

  function CachedBytes(cached: map<nat, Text>, n: nat): nat {
    if n == 0 then 0 else CachedBytes(cached, n - 1) + (if n - 1 in cached then 2 * |cached[n - 1]| else 0)
  }

  ghost predicate Inv(s: Index) {
    && (forall i :: i in s.cachedText ==> i < |s.events| && s.cachedText[i] == s.events[i])
    && s.cachedTextBytes == CachedBytes(s.cachedText, |s.events|)
    && s.cachedTextBytes <= s.maxBytes
  }

  lemma {:induction false} CachedBytesAdd(cached: map<nat, Text>, n: nat, i: nat, text: Text)
    requires i !in cached
    ensures CachedBytes(cached[i := text], n) == CachedBytes(cached, n) + (if i < n then 2 * |text| else 0)
    decreases n
  {
    if n > 0 { CachedBytesAdd(cached, n - 1, i, text); }
  }

  lemma LookKeeps(s: Index, i: nat)
    requires Inv(s) && i < |s.events|
    ensures Inv(Look(s, i))
  {
    if i !in s.cachedText { CachedBytesAdd(s.cachedText, |s.events|, i, s.events[i]); }
  }

  lemma ByOtherKeeps(s: Index, o: Other)
    requires Inv(s)
    ensures Inv(ByOther(s, o)) && ByOther(s, o).maxBytes == s.maxBytes
  {
    if o.Looks? && o.i < |s.events| { LookKeeps(s, o.i); }
  }

  lemma {:induction false} ByOthersKeep(s: Index, turn: seq<Other>)
    requires Inv(s)
    ensures Inv(ByOthers(s, turn)) && ByOthers(s, turn).maxBytes == s.maxBytes
    decreases |turn|
  {
    if |turn| > 0 {
      ByOtherKeeps(s, turn[0]);
      ByOthersKeep(ByOther(s, turn[0]), turn[1..]);
    }
  }

  lemma SeenKeeps(s: Index, i: nat, q: Text)
    requires Inv(s) && i < |s.events|
    ensures Inv(Seen(s, i, q)) && Seen(s, i, q).events == s.events && Seen(s, i, q).generation == s.generation
    ensures Hit(s, i, q) == Includes(s.events[i], q)
  {
    LookKeeps(s, i);
  }

  // ---------- scanning prefix by prefix ----------

  lemma {:induction false} MatchesExtend(events: seq<Text>, q: Text, i: nat)
    requires i <= |events|
    ensures MatchesOf(events[..i], q) <= MatchesOf(events, q)
    decreases |events|
  {
    if i < |events| {
      var front := events[..|events| - 1];
      assert front[..i] == events[..i];
      MatchesExtend(front, q, i);
    } else {
      assert events[..i] == events;
    }
  }

  lemma MatchesNext(events: seq<Text>, q: Text, i: nat)
    requires i < |events|
    ensures MatchesOf(events[..i + 1], q) == MatchesOf(events[..i], q) + (if Includes(events[i], q) then [i] else [])
  {
    assert events[..i + 1][..i] == events[..i];
  }

  /** Once there is one match too many, the rest of the log cannot change the answer. */
  lemma OverflowIsFinal(events: seq<Text>, q: Text, limit: int, i: nat, matches: seq<nat>)
    requires i < |events| && matches == MatchesOf(events[..i], q) && Includes(events[i], q)
    requires |matches| >= limit && (|matches| <= limit || matches == [])
    ensures Answer(events, q, limit) == Scan(matches, true)
  {
    MatchesNext(events, q, i);
    MatchesExtend(events, q, i + 1);
    var all := MatchesOf(events, q);
    assert all[..|matches| + 1] == matches + [i];
    assert all[..|matches|] == matches;
  }

  /** Where a scan stands: the matches so far, no more than the limit. */
  ghost predicate OnTrack(s: Index, q: Text, limit: int, i: nat, matches: seq<nat>) {
    i <= |s.events| && matches == MatchesOf(s.events[..i], q) && (|matches| <= limit || |matches| == 0)
  }

  /** The answer of a scan that started when the log had `end` events, as of the state it ends in. */
  ghost predicate Consistent(p: Progress, q: Text, limit: int, generation: nat, end: nat) {
    && (p.result.None? <==> p.index.generation != generation)
    && (p.result.Some? ==> end <= |p.index.events| && p.result.value == Answer(p.index.events[..end], q, limit))
  }

  /** How a scan ends, seen from the state it started in. */
  ghost predicate Outcome(s: Index, p: Progress, q: Text, limit: int, generation: nat, end: nat) {
    Inv(p.index) && Later(s, p.index) && Consistent(p, q, limit, generation, end)
  }

  lemma OutcomeFrom(s: Index, after: Index, p: Progress, q: Text, limit: int, generation: nat, end: nat)
    requires Later(s, after) && Outcome(after, p, q, limit, generation, end)
    ensures Outcome(s, p, q, limit, generation, end)
  {
  }

  lemma EndsRight(s: Index, q: Text, limit: int, end: nat, matches: seq<nat>)
    requires end <= |s.events| && OnTrack(s, q, limit, end, matches)
    ensures Answer(s.events[..end], q, limit) == Scan(matches, false)
  {
  }

  lemma {:induction false} ScanGenerationConsistent(
      s: Index, schedule: Schedule, q: Text, limit: int, yieldEvery: int, generation: nat, end: nat, i: nat, matches: seq<nat>)
    requires Inv(s) && i <= end <= |s.events| && s.generation == generation && OnTrack(s, q, limit, i, matches)
    ensures Outcome(s, ScanGeneration(s, schedule, q, limit, yieldEvery, generation, end, i, matches), q, limit, generation, end)
    decreases end - i, 1
  {
    if i == end {
      EndsRight(s, q, limit, end, matches);
    } else {
      SeenKeeps(s, i, q);
      var seen := Seen(s, i, q);
      if Hit(s, i, q) && |matches| >= limit {
        StopsRight(s, q, limit, end, i, matches);
      } else if YieldsAt(yieldEvery, i) {
        var after := Yield(seen, schedule);
        if |schedule| > 0 { ByOthersKeep(seen, schedule[0]); }
        if after.generation == generation {
          ScansOn(s, after, Rest(schedule), q, limit, yieldEvery, generation, end, i, matches, Found(s, i, q, matches));
        }
      } else {
        ScansOn(s, seen, schedule, q, limit, yieldEvery, generation, end, i, matches, Found(s, i, q, matches));
      }
    }
  }

  /** The rest of a scan that goes on, in a state perhaps changed meanwhile. */
  lemma {:induction false} ScansOn(
      s: Index, after: Index, schedule: Schedule, q: Text, limit: int, yieldEvery: int, generation: nat, end: nat, i: nat,
      matches: seq<nat>, found: seq<nat>)
    requires Inv(after) && Later(s, after) && i < end <= |s.events| && s.generation == after.generation == generation
    requires OnTrack(s, q, limit, i, matches) && found == (if Includes(s.events[i], q) then matches + [i] else matches)
    requires Includes(s.events[i], q) ==> |matches| < limit
    ensures end <= |after.events|
    ensures Outcome(s, ScanGeneration(after, schedule, q, limit, yieldEvery, generation, end, i + 1, found), q, limit, generation, end)
    decreases end - i, 0
  {
    StaysOnTrack(s, after, q, limit, i, matches, found);
    ScanGenerationConsistent(after, schedule, q, limit, yieldEvery, generation, end, i + 1, found);
    OutcomeFrom(s, after, ScanGeneration(after, schedule, q, limit, yieldEvery, generation, end, i + 1, found), q, limit, generation, end);
  }

  /** Looking on keeps the scan on track, also when the log has grown meanwhile. */
  lemma StaysOnTrack(s: Index, after: Index, q: Text, limit: int, i: nat, matches: seq<nat>, found: seq<nat>)
    requires i < |s.events| && OnTrack(s, q, limit, i, matches) && s.events <= after.events
    requires found == if Includes(s.events[i], q) then matches + [i] else matches
    requires Includes(s.events[i], q) ==> |matches| < limit
    ensures OnTrack(after, q, limit, i + 1, found)
  {
    MatchesNext(s.events, q, i);
    assert after.events[..i + 1] == s.events[..i + 1];
  }

  lemma StopsRight(s: Index, q: Text, limit: int, end: nat, i: nat, matches: seq<nat>)
    requires i < end <= |s.events| && OnTrack(s, q, limit, i, matches) && Includes(s.events[i], q) && |matches| >= limit
    ensures Answer(s.events[..end], q, limit) == Scan(matches, true)
  {
    assert s.events[..end][..i] == s.events[..i];
    OverflowIsFinal(s.events[..end], q, limit, i, matches);
  }

  /** How the attempts of a search went: each but the last was cut short by a reset of the log. */
  predicate AllInterrupted(s: Index, schedule: Schedule, q: Text, limit: int, yieldEvery: int, attempts: nat)
    decreases attempts
  {
    attempts == 0 ||
    var p := Attempt(s, schedule, q, limit, yieldEvery);
    p.index.generation != s.generation && AllInterrupted(p.index, p.schedule, q, limit, yieldEvery, attempts - 1)
  }

  lemma AttemptConsistent(s: Index, schedule: Schedule, q: Text, limit: int, yieldEvery: int)
    requires Inv(s)
    ensures Outcome(s, Attempt(s, schedule, q, limit, yieldEvery), q, limit, s.generation, |s.events|)
  {
    assert s.events[..0] == [];
    ScanGenerationConsistent(s, schedule, q, limit, yieldEvery, s.generation, |s.events|, 0, []);
  }

  /** Linearizability: whatever others append, reset or look up at the yields, a returned result is the answer
      for a prefix of the log as it is at the return: its first `limit` matches, marked truncated exactly
      when that prefix has more. If the log was not reset, the prefix covers all events there were at the call. */
  lemma {:induction false} SearchIsLinearizable(s: Index, schedule: Schedule, q: Text, limit: int, yieldEvery: int, attempts: nat)
    returns (n: nat)
    requires Inv(s)
    ensures
      var p := ScanAsync(s, schedule, q, limit, yieldEvery, attempts);
      && Inv(p.index) && Later(s, p.index)
      && (p.result.Some? ==> n <= |p.index.events| && p.result.value == Answer(p.index.events[..n], q, limit))
      && (p.result.Some? && p.index.generation == s.generation ==> n >= |s.events|)
    decreases attempts
  {
    n := 0;
    if attempts > 0 {
      AttemptConsistent(s, schedule, q, limit, yieldEvery);
      var p := Attempt(s, schedule, q, limit, yieldEvery);
      if p.result.Some? {
        n := |s.events|;
      } else {
        n := SearchIsLinearizable(p.index, p.schedule, q, limit, yieldEvery, attempts - 1);
      }
    }
  }

  /** A search gives up exactly when every one of its attempts saw the log reset, so at least that many times. */
  lemma {:induction false} GivesUpIffInterrupted(s: Index, schedule: Schedule, q: Text, limit: int, yieldEvery: int, attempts: nat)
    requires Inv(s)
    ensures
      var p := ScanAsync(s, schedule, q, limit, yieldEvery, attempts);
      && (p.result.None? <==> AllInterrupted(s, schedule, q, limit, yieldEvery, attempts))
      && (p.result.None? ==> p.index.generation >= s.generation + attempts)
    decreases attempts
  {
    if attempts > 0 {
      AttemptConsistent(s, schedule, q, limit, yieldEvery);
      var p := Attempt(s, schedule, q, limit, yieldEvery);
      if p.result.None? {
        GivesUpIffInterrupted(p.index, p.schedule, q, limit, yieldEvery, attempts - 1);
      }
    }
  }

  // ---------- what an answer is ----------

  /** The matches are the indexes whose text holds the query, each once, in order. */
  lemma {:induction false} MatchesAreExact(events: seq<Text>, q: Text)
    ensures forall i :: i in MatchesOf(events, q) <==> 0 <= i < |events| && Includes(events[i], q)
    ensures forall a, b :: 0 <= a < b < |MatchesOf(events, q)| ==> MatchesOf(events, q)[a] < MatchesOf(events, q)[b]
    decreases |events|
  {
    if |events| > 0 {
      var front := events[..|events| - 1];
      MatchesAreExact(front, q);
      var rest := if Includes(events[|events| - 1], q) then [|events| - 1] else [];
      assert MatchesOf(events, q) == MatchesOf(front, q) + rest;
      assert forall i :: i in MatchesOf(events, q) <==> i in MatchesOf(front, q) || i in rest;
      assert forall i :: 0 <= i < |front| ==> front[i] == events[i];
      assert forall a :: 0 <= a < |MatchesOf(front, q)| ==> MatchesOf(front, q)[a] in MatchesOf(front, q);
    }
  }

  /** Substring search, stated by position. */
  lemma {:induction false} IncludesMeans(text: Text, q: Text)
    ensures Includes(text, q) <==> exists k :: 0 <= k <= |text| - |q| && OccursAt(text, q, k)
    decreases |text|
  {
    OccursFirst(text, q);
    if |text| > 0 && !(q <= text) {
      IncludesMeans(text[1..], q);
      if k :| 0 <= k <= |text[1..]| - |q| && OccursAt(text[1..], q, k) { OccursLater(text, q, k + 1); }
      forall k | 0 < k <= |text| - |q| && OccursAt(text, q, k) ensures OccursAt(text[1..], q, k - 1) { OccursLater(text, q, k); }
    }
  }

  lemma OccursFirst(text: Text, q: Text)
    ensures OccursAt(text, q, 0) <==> q <= text
  {
    if |q| <= |text| { assert text[0..0 + |q|] == text[..|q|]; }
  }

  lemma OccursLater(text: Text, q: Text, k: int)
    requires |text| > 0 && k > 0
    ensures OccursAt(text, q, k) <==> OccursAt(text[1..], q, k - 1)
  {
    if k <= |text| - |q| { assert text[1..][k - 1..k - 1 + |q|] == text[k..k + |q|]; }
  }

  predicate OccursAt(text: Text, q: Text, k: int) {
    0 <= k <= |text| - |q| && text[k..k + |q|] == q
  }
}
