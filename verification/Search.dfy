/** `SearchIndex`: the log's events and a bounded cache of their searchable text, updated in place. */
module Search {
  import opened Collections
  import opened Utf16
  import opened SearchSpec
  import Laws = SearchLaws

  class SearchIndex {
    var events: seq<Text>
    var cachedText: map<nat, Text>
    const maxCachedTextBytes: nat
    var cachedTextBytes: nat
    var generation: nat

    ghost function State(): (s: Index)
      reads this
    {
      Index(events, cachedText, cachedTextBytes, generation, maxCachedTextBytes)
    }

    constructor (maxCachedTextBytes: nat)
      ensures State() == Index([], map[], 0, 0, maxCachedTextBytes) && Laws.Inv(State())
    {
      events, cachedText, cachedTextBytes, generation := [], map[], 0, 0;
      this.maxCachedTextBytes := maxCachedTextBytes;
    }

    method Append(text: Text)
      modifies this
      ensures State() == SearchSpec.Append(old(State()), text)
    {
      events := events + [text];
    }

    method Reset()
      modifies this
      ensures State() == SearchSpec.Reset(old(State()))
    {
      generation := generation + 1;
      events := [];
      cachedText := map[];
      cachedTextBytes := 0;
    }

    method TextFor(index: nat) returns (text: Text)
      requires index < |events|
      modifies this
      ensures State() == Look(old(State()), index) && text == TextOf(old(State()), index)
    {
      if index in cachedText {
        return cachedText[index];
      }
      text := events[index];
      var costBytes := |text| * 2;
      if costBytes <= maxCachedTextBytes - cachedTextBytes {
        cachedText := cachedText[index := text];
        cachedTextBytes := cachedTextBytes + costBytes;
      }
    }

    /** Whether an event matches, looking at its text only for a non-empty query. */
    method IsMatch(index: nat, q: Text) returns (hit: bool)
      requires index < |events| && Laws.Inv(State())
      modifies this
      ensures State() == Seen(old(State()), index, q) && hit == Hit(old(State()), index, q)
      ensures Laws.Inv(State()) && events == old(events) && hit == Includes(events[index], q)
    {
      ghost var before := State();
      Laws.SeenKeeps(before, index, q);
      hit := true;
      if |q| > 0 {
        var text := TextFor(index);
        hit := Includes(text, q);
      }
    }

    /** The synchronous scan answers for the whole log. */
    method ScanAll(q: Text, limit: int) returns (scan: Scan)
      requires Laws.Inv(State())
      modifies this
      ensures scan == Answer(events, q, limit)
      ensures Laws.Inv(State()) && events == old(events) && generation == old(generation)
    {
      var matches: seq<nat>, i := [], 0;
      while i < |events|
        invariant Laws.OnTrack(State(), q, limit, i, matches)
        invariant Laws.Inv(State()) && events == old(events) && generation == old(generation)
      {
        var hit := IsMatch(i, q);
        if hit {
          if |matches| >= limit {
            Laws.OverflowIsFinal(events, q, limit, i, matches);
            return Scan(matches, true);
          }
          matches := matches + [i];
        }
        Laws.MatchesNext(events, q, i);
        i := i + 1;
      }
      assert events[..i] == events;
      scan := Scan(matches, false);
    }

    method ActAs(other: Other)
      requires Laws.Inv(State())
      modifies this
      ensures State() == ByOther(old(State()), other) && Laws.Inv(State())
    {
      Laws.ByOtherKeeps(State(), other);
      match other {
        case Appends(text) => Append(text);
        case Resets => Reset();
        case Looks(i) => if i < |events| { var _ := TextFor(i); }
      }
    }

    /** Control goes to others, who take their next turn. */
    method YieldTo(schedule: Schedule) returns (rest: Schedule)
      requires Laws.Inv(State())
      modifies this
      ensures State() == Yield(old(State()), schedule) && rest == Rest(schedule) && Laws.Inv(State())
    {
      rest := Rest(schedule);
      if |schedule| == 0 { return; }
      var i := 0;
      assert schedule[0][0..] == schedule[0];
      while i < |schedule[0]|
        invariant i <= |schedule[0]| && Laws.Inv(State())
        invariant ByOthers(State(), schedule[0][i..]) == ByOthers(old(State()), schedule[0])
      {
        assert schedule[0][i..][1..] == schedule[0][i + 1..];
        ActAs(schedule[0][i]);
        i := i + 1;
      }
    }

    method ScanAsyncGeneration(q: Text, limit: int, yieldEvery: int, generation: nat, schedule: Schedule)
      returns (result: Option<Scan>, rest: Schedule)
      requires Laws.Inv(State()) && generation == this.generation
      modifies this
      ensures Laws.Inv(State())
      ensures Progress(State(), rest, result) == Attempt(old(State()), schedule, q, limit, yieldEvery)
    {
      ghost var start := Attempt(State(), schedule, q, limit, yieldEvery);
      var matches: seq<nat>, end, i := [], |events|, 0;
      rest := schedule;
      while i < end
        invariant i <= end <= |events| && this.generation == generation && Laws.Inv(State())
        invariant ScanGeneration(State(), rest, q, limit, yieldEvery, generation, end, i, matches) == start
      {
        var hit := IsMatch(i, q);
        if hit {
          if |matches| >= limit {
            return Some(Scan(matches, true)), rest;
          }
          matches := matches + [i];
        }
        if yieldEvery > 0 && i > 0 && i % yieldEvery == 0 {
          rest := YieldTo(rest);
          if generation != this.generation {
            return None, rest;
          }
        }
        i := i + 1;
      }
      result := if generation == this.generation then Some(Scan(matches, false)) else None;
    }

    /** None stands for the error thrown after every attempt was interrupted by a reset. */
    method ScanAsync(q: Text, limit: int, yieldEvery: int, schedule: Schedule) returns (result: Option<Scan>, ghost n: nat)
      requires Laws.Inv(State())
      modifies this
      ensures result.Some? ==> n <= |events| && result.value == Answer(events[..n], q, limit)
      ensures result.Some? && generation == old(generation) ==> n >= |old(events)|
      ensures result.None? <==> Laws.AllInterrupted(old(State()), schedule, q, limit, yieldEvery, MAX_SCAN_RESTARTS + 1)
      ensures Laws.Inv(State())
    {
      ghost var run := SearchSpec.ScanAsync(State(), schedule, q, limit, yieldEvery, MAX_SCAN_RESTARTS + 1);
      n := Laws.SearchIsLinearizable(State(), schedule, q, limit, yieldEvery, MAX_SCAN_RESTARTS + 1);
      Laws.GivesUpIffInterrupted(State(), schedule, q, limit, yieldEvery, MAX_SCAN_RESTARTS + 1);
      var attempt, rest := 0, schedule;
      while attempt <= MAX_SCAN_RESTARTS
        invariant attempt <= MAX_SCAN_RESTARTS + 1 && Laws.Inv(State())
        invariant SearchSpec.ScanAsync(State(), rest, q, limit, yieldEvery, MAX_SCAN_RESTARTS + 1 - attempt) == run
      {
        result, rest := ScanAsyncGeneration(q, limit, yieldEvery, generation, rest);
        if result.Some? {
          return;
        }
        attempt := attempt + 1;
      }
      result := None;
    }
  }
}
