/** Why the cache is invisible: over every run its answers are the replay's, and its books balance. */
module ReplayCacheLaws {
  import opened Collections
  import opened ReplaySpec
  import opened ReplayCacheSpec

  // ---------- a replay looks no further than its target ----------

  lemma {:induction false} ProcessEventsAgree(codec: Codec, ctx: Context, a: seq<Input>, b: seq<Input>, n: nat)
    requires n <= |a| && n <= |b| && a[..n] == b[..n]
    ensures ProcessEvents(codec, ctx, a, n) == ProcessEvents(codec, ctx, b, n)
    decreases n
  {
    if n > 0 {
      assert a[..n][..n - 1] == a[..n - 1] && b[..n][..n - 1] == b[..n - 1];
      assert a[n - 1] == a[..n][n - 1] == b[n - 1];
      ProcessEventsAgree(codec, ctx, a, b, n - 1);
    }
  }

  /** Logs that agree up to the target replay alike there. */
  lemma ReplayDependsOnPrefix(codec: Codec, a: seq<Input>, b: seq<Input>, t: nat)
    requires t < |a| && t < |b| && a[..t + 1] == b[..t + 1]
    ensures ReplayToIndex(codec, a, t) == ReplayToIndex(codec, b, t)
  {
    ProcessEventsAgree(codec, EMPTY, a, b, t + 1);
  }

  lemma FreshDependsOnPrefix(s: Setup, a: seq<Stored>, b: seq<Stored>, t: nat)
    requires t < |a| && t < |b| && a[..t + 1] == b[..t + 1]
    ensures Fresh(s, a, t) == Fresh(s, b, t)
  {
    assert forall i :: 0 <= i < t + 1 ==> Inputs(a)[i] == a[..t + 1][i].input;
    assert forall i :: 0 <= i < t + 1 ==> Inputs(b)[i] == b[..t + 1][i].input;
    assert Inputs(a)[..t + 1] == Inputs(b)[..t + 1];
    ReplayDependsOnPrefix(s.codec, Inputs(a), Inputs(b), t);
  }

  // ---------- the books ----------

  ghost predicate Balanced(c: Cache) {
    c.entries.Valid() && c.cost == TotalCost(c.entries.order, c.entries.entries)
  }

  ghost predicate Bounded(s: Setup, c: Cache) {
    |c.entries.order| <= s.maxEntries && c.cost <= s.maxCost
  }

  lemma {:induction false} TotalCostAgrees(order: seq<int>, a: map<int, Entry>, b: map<int, Entry>)
    requires forall t {:trigger t in order} :: t in order ==> t in a && t in b && a[t] == b[t]
    ensures TotalCost(order, a) == TotalCost(order, b)
    decreases |order|
  {
    if |order| > 0 {
      var first := order[0];
      assert first in order;
      assert forall t :: t in order[1..] ==> t in order;
      TotalCostAgrees(order[1..], a, b);
    }
  }

  lemma {:induction false} TotalCostWithout(order: seq<int>, entries: map<int, Entry>, t: int)
    requires t in order && t in entries
    ensures TotalCost(Without(order, t), entries) == TotalCost(order, entries) - entries[t].cost
    decreases |order|
  {
    if order[0] != t {
      var rest := Without(order[1..], t);
      TotalCostWithout(order[1..], entries, t);
      assert ([order[0]] + rest)[1..] == rest;
    }
  }

  lemma {:induction false} TotalCostSnoc(order: seq<int>, entries: map<int, Entry>, t: int)
    requires t in entries
    ensures TotalCost(order + [t], entries) == TotalCost(order, entries) + entries[t].cost
    decreases |order|
  {
    if |order| > 0 {
      TotalCostSnoc(order[1..], entries, t);
      assert (order + [t])[1..] == order[1..] + [t];
    }
  }

  lemma DropBalances(c: Cache, t: int)
    requires Balanced(c)
    ensures Balanced(Drop(c, t)) && t !in Drop(c, t).entries.entries && Drop(c, t).cost <= c.cost
  {
    if t in c.entries.entries {
      var order := c.entries.order;
      TotalCostWithout(order, c.entries.entries, t);
      TotalCostAgrees(Without(order, t), c.entries.entries, c.entries.entries - {t});
    }
  }

  lemma AddBalances(c: Cache, t: int, entry: Entry)
    requires Balanced(c) && t !in c.entries.entries
    ensures Balanced(Add(c, t, entry))
  {
    var order, entries := c.entries.order, c.entries.entries;
    TotalCostSnoc(order, entries[t := entry], t);
    TotalCostAgrees(order, entries, entries[t := entry]);
  }

  lemma {:induction false} EvictBalances(s: Setup, c: Cache)
    requires Balanced(c)
    ensures var e := EvictToBounds(s, c); Balanced(e) && Bounded(s, e)
    decreases |c.entries.order|
  {
    if TooBig(s, |c.entries.order|, c.cost) && |c.entries.order| > 0 {
      DropBalances(c, c.entries.order[0]);
      EvictBalances(s, Drop(c, c.entries.order[0]));
    }
  }

  /** How many entries have to go: the fewest for which the rest is within both bounds. */
  function Evicted(s: Setup, c: Cache): (n: nat)
    requires c.entries.Valid()
    ensures n <= |c.entries.order|
    decreases |c.entries.order|
  {
    if TooBig(s, |c.entries.order|, c.cost) && |c.entries.order| > 0 then 1 + Evicted(s, Drop(c, c.entries.order[0])) else 0
  }

  /** Eviction keeps the most recently used entries, unchanged. */
  lemma {:induction false} EvictsLeastRecent(s: Setup, c: Cache)
    requires Balanced(c)
    ensures EvictToBounds(s, c).entries.order == c.entries.order[Evicted(s, c)..]
    ensures KeepsEntries(c, EvictToBounds(s, c))
    decreases |c.entries.order|
  {
    var order := c.entries.order;
    if TooBig(s, |order|, c.cost) && |order| > 0 {
      var d := Drop(c, order[0]);
      DropBalances(c, order[0]);
      EvictsLeastRecent(s, d);
      assert d.entries.order == order[1..];
    } else {
      assert order[0..] == order;
    }
  }

  /** Eviction keeps as many entries as fit: every longer tail of the order is over a bound. */
  lemma {:induction false} EvictsNoMoreThanNeeded(s: Setup, c: Cache)
    requires Balanced(c)
    ensures forall k :: 0 <= k < Evicted(s, c) ==>
      TooBig(s, |c.entries.order| - k, TotalCost(c.entries.order[k..], c.entries.entries))
    decreases |c.entries.order|
  {
    var order := c.entries.order;
    if TooBig(s, |order|, c.cost) && |order| > 0 {
      var d := Drop(c, order[0]);
      DropBalances(c, order[0]);
      EvictsNoMoreThanNeeded(s, d);
      assert d.entries.order == order[1..];
      TooBigTails(s, c, d, Evicted(s, d));
    }
  }

  /** What is left in the order is as it was. */
  ghost predicate KeepsEntries(c: Cache, e: Cache) {
    forall t :: t in e.entries.order ==> t in c.entries.entries && t in e.entries.entries && e.entries.entries[t] == c.entries.entries[t]
  }

  lemma TooBigTails(s: Setup, c: Cache, d: Cache, n: nat)
    requires Balanced(c) && |c.entries.order| > 0 && TooBig(s, |c.entries.order|, c.cost)
    requires d == Drop(c, c.entries.order[0]) && d.entries.order == c.entries.order[1..] && n <= |d.entries.order|
    requires forall k :: 0 <= k < n ==> TooBig(s, |d.entries.order| - k, TotalCost(d.entries.order[k..], d.entries.entries))
    ensures forall k :: 0 <= k < n + 1 ==> TooBig(s, |c.entries.order| - k, TotalCost(c.entries.order[k..], c.entries.entries))
  {
    var order := c.entries.order;
    forall k | 0 <= k < n + 1 ensures TooBig(s, |order| - k, TotalCost(order[k..], c.entries.entries)) {
      if k == 0 {
        assert order[0..] == order;
      } else {
        assert order[1..][k - 1..] == order[k..];
        TotalCostAgrees(order[k..], c.entries.entries, d.entries.entries);
      }
    }
  }

  /** The newest entry survives when it fits by itself, so a query's own result is always kept. */
  lemma NewestSurvives(s: Setup, c: Cache, t: int, entry: Entry)
    requires Balanced(c) && t !in c.entries.entries && s.maxEntries > 0 && entry.cost <= s.maxCost
    ensures IsNewest(Keep(s, c, t, entry).entries, t, entry)
  {
    var a := Add(c, t, entry);
    AddBalances(c, t, entry);
    LastOfAdd(c, t, entry);
    LastSurvives(s, a, EvictToBounds(s, a), t, entry);
  }

  /** The entry of `t` is there, and the most recent one. */
  predicate IsNewest(entries: OMap<int, Entry>, t: int, entry: Entry) {
    |entries.order| > 0 && entries.order[|entries.order| - 1] == t && entries.Get(t) == Some(entry)
  }

  lemma LastOfAdd(c: Cache, t: int, entry: Entry)
    requires t !in c.entries.entries
    ensures IsNewest(Add(c, t, entry).entries, t, entry)
  {
  }

  lemma LastSurvives(s: Setup, c: Cache, e: Cache, t: int, entry: Entry)
    requires Balanced(c) && s.maxEntries > 0 && entry.cost <= s.maxCost
    requires IsNewest(c.entries, t, entry) && e == EvictToBounds(s, c)
    ensures IsNewest(e.entries, t, entry)
  {
    EvictsLeastRecent(s, c);
    LastIsNotEvicted(s, c);
    EntryKept(c, e, Evicted(s, c), t);
  }

  lemma EntryKept(c: Cache, e: Cache, n: nat, t: int)
    requires KeepsEntries(c, e) && n < |c.entries.order| && e.entries.order == c.entries.order[n..]
    requires c.entries.order[|c.entries.order| - 1] == t
    ensures |e.entries.order| > 0 && e.entries.order[|e.entries.order| - 1] == t
    ensures t in c.entries.entries && t in e.entries.entries && e.entries.entries[t] == c.entries.entries[t]
  {
    LastOfSuffix(c.entries.order, n);
  }

  lemma LastOfSuffix(order: seq<int>, n: nat)
    requires n < |order|
    ensures order[n..] != [] && order[n..][|order[n..]| - 1] == order[|order| - 1] && order[|order| - 1] in order[n..]
  {
    assert order[n..][|order| - n - 1] == order[|order| - 1];
  }

  lemma LastIsNotEvicted(s: Setup, c: Cache)
    requires Balanced(c) && |c.entries.order| > 0 && s.maxEntries > 0
    requires c.entries.entries[c.entries.order[|c.entries.order| - 1]].cost <= s.maxCost
    ensures Evicted(s, c) < |c.entries.order|
  {
    EvictsNoMoreThanNeeded(s, c);
    var order := c.entries.order;
    var last := |order| - 1;
    assert order[last] in order;
    assert order[last..] == [order[last]];
    assert TotalCost([order[last]], c.entries.entries) <= s.maxCost;
  }

  // ---------- runs ----------

  /** The store and the cache over time. `history` remembers, for every event object ever stored, the log up
      to and including it. */
  datatype World = World(log: seq<Stored>, history: map<nat, seq<Stored>>, cache: Cache)

  datatype Op = Append(identity: nat, input: Input) | StoreReset | IndexReset | Query(target: int)

  /** An appended event is a new object: its identity was never used before, also not before a reset. */
  predicate Legal(w: World, op: Op) {
    op.Append? ==> op.identity !in w.history
  }

  function Step(s: Setup, w: World, op: Op): (r: World)
    requires w.cache.entries.Valid()
    ensures r.cache.entries.Valid()
  {
    match op
    case Append(identity, input) =>
      var log := w.log + [Stored(identity, input)];
      w.(log := log, history := w.history[identity := log])
    case StoreReset => w.(log := [])
    case IndexReset => w.(cache := Reset(w.cache, w.log))
    case Query(t) => w.(cache := AfterQuery(s, w.cache, w.log, t))
  }

  ghost predicate Remembered(log: seq<Stored>, history: map<nat, seq<Stored>>) {
    forall i :: 0 <= i < |log| ==> log[i].identity in history && history[log[i].identity] == log[..i + 1]
  }

  /** Every entry is for the event now at its index, and holds what a replay would give. */
  ghost predicate UpToDate(s: Setup, entries: OMap<int, Entry>, log: seq<Stored>) {
    forall t :: t in entries.entries ==>
      0 <= t < |log| && entries.entries[t].target == log[t].identity && entries.entries[t].result == Fresh(s, log, t)
  }

  /** Between calls the entries are up to date with the log as it was last observed. */
  ghost predicate Trusted(s: Setup, c: Cache, history: map<nat, seq<Stored>>) {
    if c.observedSize == 0 then UpToDate(s, c.entries, [])
    else
      && c.observedTail.Some? && c.observedTail.value in history
      && |history[c.observedTail.value]| == c.observedSize
      && UpToDate(s, c.entries, history[c.observedTail.value])
  }

  ghost predicate Inv(s: Setup, w: World) {
    && Remembered(w.log, w.history)
    && Balanced(w.cache) && Bounded(s, w.cache)
    && Trusted(s, w.cache, w.history)
  }

  lemma UpToDateExtends(s: Setup, entries: OMap<int, Entry>, old_: seq<Stored>, log: seq<Stored>)
    requires UpToDate(s, entries, old_) && |old_| <= |log| && log[..|old_|] == old_
    ensures UpToDate(s, entries, log)
  {
    forall t | t in entries.entries
      ensures 0 <= t < |log| && entries.entries[t].target == log[t].identity && entries.entries[t].result == Fresh(s, log, t)
    {
      assert log[..|old_|][..t + 1] == log[..t + 1];
      assert log[t] == log[..|old_|][t];
      FreshDependsOnPrefix(s, old_, log, t);
    }
  }

  /** The tail check is enough: if the event last seen at the end is still where it was, nothing before it
      has changed; otherwise the cache is emptied. */
  lemma InvalidationSuffices(s: Setup, c: Cache, log: seq<Stored>, history: map<nat, seq<Stored>>)
    requires Remembered(log, history) && Balanced(c) && Trusted(s, c, history)
    ensures UpToDate(s, InvalidateIfStorePrefixChanged(c, log).entries, log)
    ensures Balanced(InvalidateIfStorePrefixChanged(c, log))
  {
    if PriorTailPreserved(c, log) {
      if c.observedSize == 0 {
        UpToDateExtends(s, c.entries, [], log);
      } else {
        assert log[c.observedSize - 1].identity == c.observedTail.value;
        UpToDateExtends(s, c.entries, history[c.observedTail.value], log);
      }
    }
  }

  lemma RecordTrusts(s: Setup, c: Cache, log: seq<Stored>, history: map<nat, seq<Stored>>)
    requires Remembered(log, history) && UpToDate(s, c.entries, log)
    requires c.observedSize == |log| && c.observedTail == At(log, |log| - 1)
    ensures Trusted(s, c, history)
  {
    if |log| > 0 {
      assert log[..|log|] == log;
    } else {
      assert log == [];
    }
  }

  /** What a query does to a cache that is up to date. */
  lemma TouchKeeps(s: Setup, c: Cache, log: seq<Stored>, t: int)
    requires Balanced(c) && Bounded(s, c) && UpToDate(s, c.entries, log)
    ensures var c' := Touched(s, c, log, t);
      Balanced(c') && Bounded(s, c') && UpToDate(s, c'.entries, log)
    ensures var c' := Touched(s, c, log, t);
      c'.observedSize == c.observedSize && c'.observedTail == c.observedTail
  {
    if 0 <= t < |log| {
      DropBalances(c, t);
      var dropped := Drop(c, t);
      if IsHit(c, log, t) {
        AddBalances(dropped, t, c.entries.entries[t]);
      } else {
        KeepKeeps(s, dropped, log, t, Entry(Fresh(s, log, t), s.weigh(Fresh(s, log, t)), log[t].identity));
      }
    }
  }

  lemma {:induction false} EvictKeepsObserved(s: Setup, c: Cache)
    requires c.entries.Valid()
    ensures EvictToBounds(s, c).observedSize == c.observedSize && EvictToBounds(s, c).observedTail == c.observedTail
    decreases |c.entries.order|
  {
    if TooBig(s, |c.entries.order|, c.cost) && |c.entries.order| > 0 { EvictKeepsObserved(s, Drop(c, c.entries.order[0])); }
  }

  lemma EvictUpToDate(s: Setup, c: Cache, log: seq<Stored>)
    requires Balanced(c) && UpToDate(s, c.entries, log)
    ensures UpToDate(s, EvictToBounds(s, c).entries, log)
  {
    EvictsLeastRecent(s, c);
    var e := EvictToBounds(s, c).entries;
    assert forall t :: t in e.entries ==> t in e.order;
  }

  lemma AddUpToDate(s: Setup, c: Cache, log: seq<Stored>, t: nat, entry: Entry)
    requires Balanced(c) && UpToDate(s, c.entries, log) && t !in c.entries.entries
    requires t < |log| && entry.result == Fresh(s, log, t) && entry.target == log[t].identity
    ensures Balanced(Add(c, t, entry)) && UpToDate(s, Add(c, t, entry).entries, log)
  {
    AddBalances(c, t, entry);
  }

  lemma KeepKeeps(s: Setup, c: Cache, log: seq<Stored>, t: nat, entry: Entry)
    requires Balanced(c) && Bounded(s, c) && UpToDate(s, c.entries, log) && t !in c.entries.entries
    requires t < |log| && entry.result == Fresh(s, log, t) && entry.target == log[t].identity
    ensures Balanced(Keep(s, c, t, entry)) && Bounded(s, Keep(s, c, t, entry))
    ensures UpToDate(s, Keep(s, c, t, entry).entries, log)
    ensures Keep(s, c, t, entry).observedSize == c.observedSize && Keep(s, c, t, entry).observedTail == c.observedTail
  {
    if s.maxEntries > 0 && entry.cost <= s.maxCost {
      AddUpToDate(s, c, log, t, entry);
      EvictBalances(s, Add(c, t, entry));
      EvictUpToDate(s, Add(c, t, entry), log);
      EvictKeepsObserved(s, Add(c, t, entry));
    }
  }

  /** A query answers as a fresh replay of the current log would, and leaves only up-to-date entries. */
  lemma QueryIsInvisible(s: Setup, c: Cache, log: seq<Stored>, history: map<nat, seq<Stored>>, t: int)
    requires Remembered(log, history) && Balanced(c) && Bounded(s, c) && Trusted(s, c, history)
    ensures Answer(s, c, log, t) == Fresh(s, log, t)
    ensures UpToDate(s, AfterQuery(s, c, log, t).entries, log)
    ensures Trusted(s, AfterQuery(s, c, log, t), history)
    ensures Balanced(AfterQuery(s, c, log, t)) && Bounded(s, AfterQuery(s, c, log, t))
  {
    var checked := InvalidateIfStorePrefixChanged(c, log);
    InvalidationSuffices(s, c, log, history);
    TouchKeeps(s, checked, log, t);
    RecordTrusts(s, Touched(s, checked, log, t), log, history);
  }

  lemma StepKeeps(s: Setup, w: World, op: Op)
    requires Inv(s, w) && Legal(w, op)
    ensures Inv(s, Step(s, w, op))
  {
    match op {
      case Append(identity, input) =>
        var log := w.log + [Stored(identity, input)];
        assert forall i :: 0 <= i < |w.log| ==> log[..i + 1] == w.log[..i + 1] && log[i] == w.log[i];
        assert log[..|log|] == log;
      case StoreReset =>
      case IndexReset =>
        RecordTrusts(s, Reset(w.cache, w.log), w.log, w.history);
      case Query(t) =>
        QueryIsInvisible(s, w.cache, w.log, w.history, t);
    }
  }

  /** Where a new index over a log starts. */
  function Start(log: seq<Stored>): Cache {
    Observe(Cache(Empty(), 0, 0, None), log)
  }

  predicate AllLegal(s: Setup, w: World, ops: seq<Op>)
    requires w.cache.entries.Valid()
    decreases |ops|
  {
    |ops| == 0 || (Legal(w, ops[0]) && AllLegal(s, Step(s, w, ops[0]), ops[1..]))
  }

  function Run(s: Setup, w: World, ops: seq<Op>): (r: World)
    requires w.cache.entries.Valid()
    ensures r.cache.entries.Valid()
    decreases |ops|
  {
    if |ops| == 0 then w else Run(s, Step(s, w, ops[0]), ops[1..])
  }

  lemma {:induction false} RunKeeps(s: Setup, w: World, ops: seq<Op>)
    requires Inv(s, w) && AllLegal(s, w, ops)
    ensures Inv(s, Run(s, w, ops))
    decreases |ops|
  {
    if |ops| > 0 {
      StepKeeps(s, w, ops[0]);
      RunKeeps(s, Step(s, w, ops[0]), ops[1..]);
    }
  }

  /** The cache is invisible: whatever appends, resets and queries came before, a query gives exactly the
      replay of the events now in the store; the cost total is the entries' cost, and both bounds hold. */
  lemma CacheIsInvisible(s: Setup, log: seq<Stored>, history: map<nat, seq<Stored>>, ops: seq<Op>, t: int)
    requires Remembered(log, history) && AllLegal(s, World(log, history, Start(log)), ops)
    ensures
      var w := Run(s, World(log, history, Start(log)), ops);
      && Answer(s, w.cache, w.log, t) == ReplayToIndex(s.codec, Inputs(w.log), t)
      && w.cache.cost == TotalCost(w.cache.entries.order, w.cache.entries.entries)
      && |w.cache.entries.order| <= s.maxEntries && w.cache.cost <= s.maxCost
  {
    RecordTrusts(s, Start(log), log, history);
    RunKeeps(s, World(log, history, Start(log)), ops);
    var w := Run(s, World(log, history, Start(log)), ops);
    QueryIsInvisible(s, w.cache, w.log, w.history, t);
  }
}
