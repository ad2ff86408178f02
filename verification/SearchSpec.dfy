/** Substring search over the log with a bounded text cache, scanned in slices while the log changes. */
module SearchSpec {
  import opened Collections
  import opened Utf16

  const MAX_SCAN_RESTARTS := 2

  /** The index: per event its searchable text, the texts kept so far and their size. */
  datatype Index = Index(events: seq<Text>, cachedText: map<nat, Text>, cachedTextBytes: nat, generation: nat, maxBytes: nat)

  datatype Scan = Scan(matches: seq<nat>, truncated: bool)

  // ---------- what a search means ----------

  predicate Includes(text: Text, q: Text) {
    q <= text || (|text| > 0 && Includes(text[1..], q))
  }

  function MatchesOf(events: seq<Text>, q: Text): (r: seq<nat>)
    ensures |r| <= |events|
  {
    if |events| == 0 then []
    else
      var n := |events| - 1;
      MatchesOf(events[..n], q) + (if Includes(events[n], q) then [n] else [])
  }

  function Limited(matches: seq<nat>, limit: int): Scan {
    var room := if limit < 0 then 0 else limit;
    if |matches| <= room then Scan(matches, false) else Scan(matches[..room], true)
  }

  /** The first `limit` matches, and whether there are more. */
  function Answer(events: seq<Text>, q: Text, limit: int): Scan {
    Limited(MatchesOf(events, q), limit)
  }

  // ---------- the index ----------

  function Append(s: Index, text: Text): Index {
    s.(events := s.events + [text])
  }

  function Reset(s: Index): Index {
    Index([], map[], 0, s.generation + 1, s.maxBytes)
  }

  /** Looking at an event keeps its text if there is room. */
  function Look(s: Index, i: nat): Index
    requires i < |s.events|
  {
    if i !in s.cachedText && 2 * |s.events[i]| <= s.maxBytes - s.cachedTextBytes then
      s.(cachedText := s.cachedText[i := s.events[i]], cachedTextBytes := s.cachedTextBytes + 2 * |s.events[i]|)
    else s
  }

  function TextOf(s: Index, i: nat): Text
    requires i < |s.events|
  {
    if i in s.cachedText then s.cachedText[i] else s.events[i]
  }

  /** One step of a scan: is this event a match? An empty query matches everything, without looking. */
  predicate Hit(s: Index, i: nat, q: Text)
    requires i < |s.events|
  {
    |q| == 0 || Includes(TextOf(s, i), q)
  }

  function Found(s: Index, i: nat, q: Text, matches: seq<nat>): seq<nat>
    requires i < |s.events|
  {
    if Hit(s, i, q) then matches + [i] else matches
  }

  function Seen(s: Index, i: nat, q: Text): Index
    requires i < |s.events|
  {
    if |q| == 0 then s else Look(s, i)
  }

  /** Time passes: within a generation the log only grows. */
  predicate Later(s: Index, r: Index) {
    s.generation <= r.generation && (s.generation == r.generation ==> s.events <= r.events)
  }

  // ---------- what happens at a yield ----------

  /** Others may append, reset, or look at events themselves. */
  datatype Other = Appends(text: Text) | Resets | Looks(i: nat)

  function ByOther(s: Index, o: Other): (r: Index)
    ensures Later(s, r)
  {
    match o
    case Appends(text) => Append(s, text)
    case Resets => Reset(s)
    case Looks(i) => if i < |s.events| then Look(s, i) else s
  }

  function ByOthers(s: Index, turn: seq<Other>): (r: Index)
    ensures Later(s, r)
    decreases |turn|
  {
    if |turn| == 0 then s else ByOthers(ByOther(s, turn[0]), turn[1..])
  }

  /** The turns of the others, one for each yield; nothing happens once it is used up. */
  type Schedule = seq<seq<Other>>

  function Yield(s: Index, schedule: Schedule): (r: Index)
    ensures Later(s, r)
  {
    if |schedule| == 0 then s else ByOthers(s, schedule[0])
  }

  function Rest(schedule: Schedule): Schedule {
    if |schedule| == 0 then [] else schedule[1..]
  }

  // ---------- the scan ----------

  datatype Progress = Progress(index: Index, schedule: Schedule, result: Option<Scan>)

  predicate YieldsAt(yieldEvery: int, i: nat) {
    yieldEvery > 0 && i > 0 && i % yieldEvery == 0
  }

  /** The scan of one generation from event `i` on, `matches` found so far. */
  function ScanGeneration(
      s: Index, schedule: Schedule, q: Text, limit: int, yieldEvery: int, generation: nat, end: nat, i: nat, matches: seq<nat>): Progress
    requires i <= end <= |s.events| && s.generation == generation
    decreases end - i
  {
    if i == end then Progress(s, schedule, if s.generation == generation then Some(Scan(matches, false)) else None)
    else
      var seen := Seen(s, i, q);
      if Hit(s, i, q) && |matches| >= limit then Progress(seen, schedule, Some(Scan(matches, true)))
      else
        var found := Found(s, i, q, matches);
        if YieldsAt(yieldEvery, i) then
          var after := Yield(seen, schedule);
          if after.generation != generation then Progress(after, Rest(schedule), None)
          else ScanGeneration(after, Rest(schedule), q, limit, yieldEvery, generation, end, i + 1, found)
        else ScanGeneration(seen, schedule, q, limit, yieldEvery, generation, end, i + 1, found)
  }

  function Attempt(s: Index, schedule: Schedule, q: Text, limit: int, yieldEvery: int): Progress {
    ScanGeneration(s, schedule, q, limit, yieldEvery, s.generation, |s.events|, 0, [])
  }

  /** Starts over when the log was reset meanwhile, a bounded number of times; then gives up. */
  function ScanAsync(s: Index, schedule: Schedule, q: Text, limit: int, yieldEvery: int, attempts: nat): Progress
    decreases attempts
  {
    if attempts == 0 then Progress(s, schedule, None)
    else
      var p := Attempt(s, schedule, q, limit, yieldEvery);
      if p.result.Some? then p else ScanAsync(p.index, p.schedule, q, limit, yieldEvery, attempts - 1)
  }
}
