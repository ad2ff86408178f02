/** What an answer is, said of the log alone; how often a scan lets others in; and what it leaves cached. */
module SearchAnswers {
  import opened Collections
  import opened Utf16
  import opened SearchSpec
  import opened SearchLaws

  // ---------- answers ----------

  predicate IsMatch(events: seq<Text>, q: Text, i: int) {
    0 <= i < |events| && exists k :: 0 <= k <= |events[i]| - |q| && OccursAt(events[i], q, k)
  }

  /** The earliest matches, in order and at most `limit`; truncated exactly if there are more. */
  ghost predicate IsAnswer(events: seq<Text>, q: Text, limit: int, scan: Scan) {
    var room := if limit < 0 then 0 else limit;
    && |scan.matches| <= room
    && (forall a :: 0 <= a < |scan.matches| ==> IsMatch(events, q, scan.matches[a]))
    && (forall a, b :: 0 <= a < b < |scan.matches| ==> scan.matches[a] < scan.matches[b])
    && (forall i :: IsMatch(events, q, i) && i !in scan.matches ==> scan.truncated && forall a :: 0 <= a < |scan.matches| ==> scan.matches[a] < i)
    && (scan.truncated ==> |scan.matches| == room && exists i :: IsMatch(events, q, i) && i !in scan.matches)
  }

  /** The answer of every search is that. */
  lemma AnswerMeans(events: seq<Text>, q: Text, limit: int)
    ensures IsAnswer(events, q, limit, Answer(events, q, limit))
  {
    var all := MatchesOf(events, q);
    MatchesAreExact(events, q);
    forall i ensures i in all <==> IsMatch(events, q, i) {
      if 0 <= i < |events| { IncludesMeans(events[i], q); }
    }
    LimitedMeans(events, q, limit, all);
  }

  lemma LimitedMeans(events: seq<Text>, q: Text, limit: int, all: seq<nat>)
    requires forall i :: i in all <==> IsMatch(events, q, i)
    requires forall a, b :: 0 <= a < b < |all| ==> all[a] < all[b]
    ensures IsAnswer(events, q, limit, Limited(all, limit))
  {
    var room := if limit < 0 then 0 else limit;
    if |all| > room {
      var listed := all[..room];
      assert all[room] in all && all[room] !in listed;
      forall i | IsMatch(events, q, i) && i !in listed ensures forall a :: 0 <= a < room ==> listed[a] < i {
        var b :| 0 <= b < |all| && all[b] == i;
        assert forall c :: 0 <= c < room ==> all[c] in listed;
      }
    }
  }

  // ---------- yields ----------

  /** How many of the events before `end` a scan yields after: every `yieldEvery`th but the first. */
  function YieldsBefore(yieldEvery: int, end: nat): nat {
    if yieldEvery > 0 && end > 0 then (end - 1) / yieldEvery else 0
  }

  lemma DivNext(i: nat, y: int)
    requires y > 0 && i > 0
    ensures i / y == (i - 1) / y + (if i % y == 0 then 1 else 0)
  {
    var k, m := (i - 1) / y, (i - 1) % y;
    assert i == k * y + (m + 1);
    if m + 1 == y { DivIs(i, y, k + 1, 0); } else { DivIs(i, y, k, m + 1); }
  }

  lemma DivIs(i: nat, y: int, k: int, m: int)
    requires y > 0 && i == k * y + m && 0 <= m < y
    ensures i / y == k && i % y == m
  {
    var d := i / y - k;
    assert i == (i / y) * y + i % y;
    assert d * y == m - i % y;
    AtLeastOnce(d, y);
  }

  lemma AtLeastOnce(d: int, y: int)
    requires y > 0
    ensures (d >= 1 ==> d * y >= y) && (d <= -1 ==> d * y <= -y)
  {
    assert d >= 1 ==> (d - 1) * y >= 0;
    assert d <= -1 ==> (d + 1) * y <= 0;
  }

  lemma YieldsNext(yieldEvery: int, i: nat)
    ensures YieldsBefore(yieldEvery, i + 1) == YieldsBefore(yieldEvery, i) + (if YieldsAt(yieldEvery, i) then 1 else 0)
  {
    if yieldEvery > 0 {
      if i > 0 { DivNext(i, yieldEvery); } else { DivIs(0, yieldEvery, 0, 0); }
    }
  }

  /** What is left of a schedule after some yields. */
  function Left(turns: nat, used: nat): nat {
    if turns < used then 0 else turns - used
  }

  lemma {:induction false} ScanYields(
      s: Index, schedule: Schedule, q: Text, limit: int, yieldEvery: int, generation: nat, end: nat, i: nat, matches: seq<nat>)
    requires i <= end <= |s.events| && s.generation == generation
    ensures
      var p := ScanGeneration(s, schedule, q, limit, yieldEvery, generation, end, i, matches);
      p.result.Some? && !p.result.value.truncated ==>
        YieldsBefore(yieldEvery, end) >= YieldsBefore(yieldEvery, i)
        && |p.schedule| == Left(|schedule|, YieldsBefore(yieldEvery, end) - YieldsBefore(yieldEvery, i))
    decreases end - i
  {
    if i < end {
      YieldsNext(yieldEvery, i);
      var seen := Seen(s, i, q);
      if !(Hit(s, i, q) && |matches| >= limit) {
        var found := Found(s, i, q, matches);
        if YieldsAt(yieldEvery, i) {
          var after := Yield(seen, schedule);
          if after.generation == generation {
            ScanYields(after, Rest(schedule), q, limit, yieldEvery, generation, end, i + 1, found);
          }
        } else {
          ScanYields(seen, schedule, q, limit, yieldEvery, generation, end, i + 1, found);
        }
      }
    }
  }

  /** A search attempt that goes through the whole log lets others in after every `yieldEvery` events. */
  lemma YieldsRegularly(s: Index, schedule: Schedule, q: Text, limit: int, yieldEvery: int)
    ensures
      var p := Attempt(s, schedule, q, limit, yieldEvery);
      p.result.Some? && !p.result.value.truncated ==> |p.schedule| == Left(|schedule|, YieldsBefore(yieldEvery, |s.events|))
  {
    ScanYields(s, schedule, q, limit, yieldEvery, s.generation, |s.events|, 0, []);
  }

  // ---------- what stays cached ----------

  /** The size of the first `n` texts. */
  function SizeOf(events: seq<Text>, n: nat): nat
    requires n <= |events|
  {
    if n == 0 then 0 else SizeOf(events, n - 1) + 2 * |events[n - 1]|
  }

  lemma {:induction false} RoomForOne(cached: map<nat, Text>, events: seq<Text>, n: nat, i: nat)
    requires n <= |events| && i !in cached && forall j :: j in cached ==> j < |events| && cached[j] == events[j]
    ensures CachedBytes(cached, n) + (if i < n then 2 * |events[i]| else 0) <= SizeOf(events, n)
    decreases n
  {
    if n > 0 { RoomForOne(cached, events, n - 1, i); }
  }

  /** In a log that fits the budget every text looked at is kept, and none is dropped. */
  lemma LookKeepsText(s: Index, i: nat)
    requires Inv(s) && i < |s.events| && SizeOf(s.events, |s.events|) <= s.maxBytes
    ensures i in Look(s, i).cachedText && forall j :: j in s.cachedText ==> j in Look(s, i).cachedText
  {
    if i !in s.cachedText { RoomForOne(s.cachedText, s.events, |s.events|, i); }
  }

  lemma {:induction false} ScanKeepsTexts(
      s: Index, q: Text, limit: int, yieldEvery: int, generation: nat, end: nat, i: nat, matches: seq<nat>)
    requires Inv(s) && i <= end <= |s.events| && s.generation == generation && |q| > 0
    requires SizeOf(s.events, |s.events|) <= s.maxBytes && forall j: nat :: j < i ==> j in s.cachedText
    ensures
      var p := ScanGeneration(s, [], q, limit, yieldEvery, generation, end, i, matches);
      p.result.Some? && !p.result.value.truncated ==> forall j: nat :: j < end ==> j in p.index.cachedText
    decreases end - i
  {
    if i < end && !(Hit(s, i, q) && |matches| >= limit) {
      var seen := Seen(s, i, q);
      LookKeepsText(s, i);
      SeenKeeps(s, i, q);
      ScanKeepsTexts(seen, q, limit, yieldEvery, generation, end, i + 1, Found(s, i, q, matches));
    }
  }

  /** A search of the whole log leaves every text cached if the log fits the budget. */
  lemma SearchCachesLog(s: Index, q: Text, limit: int, yieldEvery: int)
    requires Inv(s) && |q| > 0 && SizeOf(s.events, |s.events|) <= s.maxBytes
    ensures
      var p := Attempt(s, [], q, limit, yieldEvery);
      p.result.Some? && !p.result.value.truncated ==> forall j: nat :: j < |s.events| ==> j in p.index.cachedText
  {
    ScanKeepsTexts(s, q, limit, yieldEvery, s.generation, |s.events|, 0, []);
  }
}
