/** The bounded cache in front of the replay: a least-recently-used map that answers as if it were not there. */
module ReplayCacheSpec {
  import opened Collections
  import opened ReplaySpec

  /** A stored event: the object's identity and what the replay reads from it. */
  datatype Stored = Stored(identity: nat, input: Input)

  function Inputs(log: seq<Stored>): (r: seq<Input>)
    ensures |r| == |log| && forall i :: 0 <= i < |r| ==> r[i] == log[i].input
  {
    if |log| == 0 then [] else [log[0].input] + Inputs(log[1..])
  }

  datatype Entry = Entry(result: ReplayResult, cost: nat, target: nat)

  datatype Cache = Cache(entries: OMap<int, Entry>, cost: int, observedSize: nat, observedTail: Option<nat>)

  /** What does not change during a cache's life. `weigh` is the size estimate, cut off past the bound. */
  datatype Setup = Setup(codec: Codec, maxEntries: nat, maxCost: nat, weigh: ReplayResult -> nat)

  // ---------- operations ----------

  /** The identity of the event at an index, if there is one. */
  function At(log: seq<Stored>, i: int): Option<nat> {
    if 0 <= i < |log| then Some(log[i].identity) else None
  }

  function Observe(c: Cache, log: seq<Stored>): Cache {
    c.(observedSize := |log|, observedTail := At(log, |log| - 1))
  }

  function Clear(c: Cache): Cache {
    c.(entries := Empty(), cost := 0)
  }

  predicate PriorTailPreserved(c: Cache, log: seq<Stored>) {
    c.observedSize == 0 || (|log| >= c.observedSize && At(log, c.observedSize - 1) == c.observedTail)
  }

  function InvalidateIfStorePrefixChanged(c: Cache, log: seq<Stored>): Cache {
    Observe(if PriorTailPreserved(c, log) then c else Clear(c), log)
  }

  function Reset(c: Cache, log: seq<Stored>): Cache {
    Observe(Clear(c), log)
  }

  predicate TooBig(s: Setup, size: nat, cost: int) {
    size > s.maxEntries || cost > s.maxCost
  }

  /** The oldest entries go until both bounds hold. */
  function EvictToBounds(s: Setup, c: Cache): (r: Cache)
    requires c.entries.Valid()
    ensures r.entries.Valid()
    decreases |c.entries.order|
  {
    if TooBig(s, |c.entries.order|, c.cost) && |c.entries.order| > 0 then EvictToBounds(s, Drop(c, c.entries.order[0])) else c
  }

  function Drop(c: Cache, t: int): Cache {
    if t in c.entries.entries then c.(entries := c.entries.Delete(t), cost := c.cost - c.entries.entries[t].cost) else c
  }

  predicate IsHit(c: Cache, log: seq<Stored>, t: int) {
    0 <= t < |log| && t in c.entries.entries && Some(c.entries.entries[t].target) == At(log, t)
  }

  function Fresh(s: Setup, log: seq<Stored>, t: int): ReplayResult {
    ReplayToIndex(s.codec, Inputs(log), t)
  }

  /** The cache after a query, once it has been checked against the store. */
  function Touched(s: Setup, c: Cache, log: seq<Stored>, t: int): (r: Cache)
    requires c.entries.Valid()
    ensures r.entries.Valid()
  {
    if !(0 <= t < |log|) then c
    else if IsHit(c, log, t) then c.(entries := c.entries.Delete(t).Set(t, c.entries.entries[t]))
    else Keep(s, Drop(c, t), t, Entry(Fresh(s, log, t), s.weigh(Fresh(s, log, t)), log[t].identity))
  }

  function Add(c: Cache, t: int, entry: Entry): Cache {
    c.(entries := c.entries.Set(t, entry), cost := c.cost + entry.cost)
  }

  /** A new result is kept unless it alone is over the bounds. */
  function Keep(s: Setup, c: Cache, t: int, entry: Entry): Cache
    requires c.entries.Valid()
  {
    if s.maxEntries > 0 && entry.cost <= s.maxCost then
      EvictToBounds(s, Add(c, t, entry))
    else c
  }

  /** The cost of the entries, summed. */
  function TotalCost(order: seq<int>, entries: map<int, Entry>): nat {
    if |order| == 0 then 0
    else (if order[0] in entries then entries[order[0]].cost else 0) + TotalCost(order[1..], entries)
  }

  function AfterQuery(s: Setup, c: Cache, log: seq<Stored>, t: int): (r: Cache)
    requires c.entries.Valid()
    ensures r.entries.Valid()
  {
    Touched(s, InvalidateIfStorePrefixChanged(c, log), log, t)
  }

  function Answer(s: Setup, c: Cache, log: seq<Stored>, t: int): ReplayResult {
    var checked := InvalidateIfStorePrefixChanged(c, log);
    if IsHit(checked, log, t) then checked.entries.entries[t].result else Fresh(s, log, t)
  }
}
