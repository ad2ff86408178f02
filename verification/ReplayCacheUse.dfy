/** When the cache is of use: which queries hit, and how each query moves the recency order. */
module ReplayCacheUse {
  import opened Collections
  import opened ReplaySpec
  import opened ReplayCacheSpec
  import opened ReplayCacheLaws

  /** Exactly the queries for a cached index hit, as long as the store still holds the event last seen at its end. */
  lemma HitIff(s: Setup, w: World, t: int)
    requires Inv(s, w)
    ensures IsHit(InvalidateIfStorePrefixChanged(w.cache, w.log), w.log, t)
       <==> t in w.cache.entries.entries && PriorTailPreserved(w.cache, w.log)
  {
    InvalidationSuffices(s, w.cache, w.log, w.history);
  }

  /** The new result is small enough to be kept. */
  predicate Storable(s: Setup, log: seq<Stored>, t: int) {
    0 <= t < |log| && s.maxEntries > 0 && s.weigh(Fresh(s, log, t)) <= s.maxCost
  }

  /** `order` without its oldest members, if any. */
  ghost predicate SuffixOf(suffix: seq<int>, order: seq<int>) {
    |suffix| <= |order| && suffix == order[|order| - |suffix|..]
  }

  ghost predicate SameEntries(order: seq<int>, a: OMap<int, Entry>, b: OMap<int, Entry>, but: int) {
    forall k :: k in order && k != but ==> b.Get(k) == a.Get(k)
  }

  /** How a query moves the recency order of a cache that is up to date: a hit becomes the most recent and nothing
      else changes; a miss that can be kept becomes the most recent, at the cost of some of the least recent; any
      other query at most removes its own stale entry. */
  lemma QueryMovesRecency(s: Setup, c: Cache, log: seq<Stored>, t: int)
    requires Balanced(c) && 0 <= t < |log|
    ensures
      var c', rest := Touched(s, c, log, t), Without(c.entries.order, t);
      && (if IsHit(c, log, t) then c'.entries.order == rest + [t] && c'.entries.Get(t) == c.entries.Get(t) && c'.cost == c.cost
          else if Storable(s, log, t) then SuffixOf(c'.entries.order, rest + [t]) && |c'.entries.order| > 0
          else c'.entries.order == rest)
      && SameEntries(c'.entries.order, c.entries, c'.entries, t)
  {
    if IsHit(c, log, t) {
      HitMoves(c, t);
    } else {
      DropBalances(c, t);
      DropMoves(c, t);
      if Storable(s, log, t) { MissMoves(s, c, Drop(c, t), log, t); }
    }
  }

  lemma HitMoves(c: Cache, t: int)
    requires c.entries.Valid() && t in c.entries.entries
    ensures
      var m := c.entries.Delete(t).Set(t, c.entries.entries[t]);
      m.order == Without(c.entries.order, t) + [t] && m.Get(t) == c.entries.Get(t) && SameEntries(m.order, c.entries, m, t)
  {
  }

  lemma DropMoves(c: Cache, t: int)
    requires c.entries.Valid()
    ensures
      var d := Drop(c, t);
      d.entries.order == Without(c.entries.order, t) && t !in d.entries.entries && SameEntries(d.entries.order, c.entries, d.entries, t)
  {
  }

  lemma MissMoves(s: Setup, c: Cache, d: Cache, log: seq<Stored>, t: int)
    requires Balanced(d) && t !in d.entries.entries && Storable(s, log, t)
    requires SameEntries(d.entries.order, c.entries, d.entries, t)
    ensures
      var e := Keep(s, d, t, Entry(Fresh(s, log, t), s.weigh(Fresh(s, log, t)), log[t].identity));
      && SuffixOf(e.entries.order, d.entries.order + [t]) && |e.entries.order| > 0
      && SameEntries(e.entries.order, c.entries, e.entries, t)
  {
    var entry := Entry(Fresh(s, log, t), s.weigh(Fresh(s, log, t)), log[t].identity);
    var a := Add(d, t, entry);
    AddBalances(d, t, entry);
    EvictsLeastRecent(s, a);
    NewestSurvives(s, d, t, entry);
    KeptSame(c, d, a, EvictToBounds(s, a), t);
  }

  lemma KeptSame(c: Cache, d: Cache, a: Cache, e: Cache, t: int)
    requires SameEntries(d.entries.order, c.entries, d.entries, t) && d.entries.Valid()
    requires a.entries.order == d.entries.order + [t] && forall k :: k in d.entries.order ==> k != t && a.entries.Get(k) == d.entries.Get(k)
    requires KeepsEntries(a, e) && forall k :: k in e.entries.order ==> k in a.entries.order
    ensures SameEntries(e.entries.order, c.entries, e.entries, t)
  {
  }

  ghost predicate OnlyAppends(ops: seq<ReplayCacheLaws.Op>) {
    forall i :: 0 <= i < |ops| ==> ops[i].Append?
  }

  /** Appends leave the cache alone and only lengthen the log. */
  lemma {:induction false} AppendsGrow(s: Setup, w: World, ops: seq<ReplayCacheLaws.Op>)
    requires w.cache.entries.Valid() && OnlyAppends(ops)
    ensures Run(s, w, ops).cache == w.cache && w.log <= Run(s, w, ops).log
    decreases |ops|
  {
    if |ops| > 0 { AppendsGrow(s, Step(s, w, ops[0]), ops[1..]); }
  }

  /** After a query whose result is cached or can be kept, the same query hits again, however much the log has
      grown meanwhile. */
  lemma AskedAgainHits(s: Setup, w: World, t: int, ops: seq<ReplayCacheLaws.Op>)
    requires Inv(s, w) && OnlyAppends(ops) && AllLegal(s, Step(s, w, Query(t)), ops)
    requires Storable(s, w.log, t) || IsHit(InvalidateIfStorePrefixChanged(w.cache, w.log), w.log, t)
    ensures var later := Run(s, Step(s, w, Query(t)), ops); IsHit(InvalidateIfStorePrefixChanged(later.cache, later.log), later.log, t)
  {
    var asked := Step(s, w, Query(t));
    StepKeeps(s, w, Query(t));
    RunKeeps(s, asked, ops);
    AppendsGrow(s, asked, ops);
    QueryIsCached(s, w, InvalidateIfStorePrefixChanged(w.cache, w.log), t);
    QueryObserves(s, w, InvalidateIfStorePrefixChanged(w.cache, w.log), t);
    LaterHits(s, w.log, asked.cache, Run(s, asked, ops), t);
  }

  lemma LaterHits(s: Setup, log: seq<Stored>, c: Cache, later: World, t: int)
    requires Inv(s, later) && later.cache == c && log <= later.log && t in c.entries.entries
    requires c.observedSize == |log| && c.observedTail == At(log, |log| - 1)
    ensures IsHit(InvalidateIfStorePrefixChanged(later.cache, later.log), later.log, t)
  {
    StillPreserved(c, log, later.log);
    HitIff(s, later, t);
  }

  /** The store that was last looked at, longer. */
  lemma StillPreserved(c: Cache, log: seq<Stored>, longer: seq<Stored>)
    requires log <= longer && c.observedSize == |log| && c.observedTail == At(log, |log| - 1)
    ensures PriorTailPreserved(c, longer)
  {
    assert |log| > 0 ==> longer[|log| - 1] == log[|log| - 1];
  }

  lemma QueryIsCached(s: Setup, w: World, checked: Cache, t: int)
    requires Inv(s, w) && checked == InvalidateIfStorePrefixChanged(w.cache, w.log)
    requires Storable(s, w.log, t) || IsHit(checked, w.log, t)
    ensures t in Step(s, w, Query(t)).cache.entries.entries
  {
    InvalidationSuffices(s, w.cache, w.log, w.history);
    TouchedIsCached(s, checked, w.log, t);
  }

  lemma QueryObserves(s: Setup, w: World, checked: Cache, t: int)
    requires Inv(s, w) && checked == InvalidateIfStorePrefixChanged(w.cache, w.log)
    ensures
      var c := Step(s, w, Query(t)).cache;
      c.observedSize == |w.log| && c.observedTail == At(w.log, |w.log| - 1)
  {
    InvalidationSuffices(s, w.cache, w.log, w.history);
    InvalidationBounds(s, w.cache, w.log);
    TouchKeeps(s, checked, w.log, t);
  }

  lemma TouchedIsCached(s: Setup, c: Cache, log: seq<Stored>, t: int)
    requires Balanced(c) && 0 <= t < |log| && (Storable(s, log, t) || IsHit(c, log, t))
    ensures t in Touched(s, c, log, t).entries.entries
  {
    if IsHit(c, log, t) {
      HitMoves(c, t);
    } else {
      DropBalances(c, t);
      DropMoves(c, t);
      NewestSurvives(s, Drop(c, t), t, Entry(Fresh(s, log, t), s.weigh(Fresh(s, log, t)), log[t].identity));
    }
  }

  lemma InvalidationBounds(s: Setup, c: Cache, log: seq<Stored>)
    requires Bounded(s, c)
    ensures Bounded(s, InvalidateIfStorePrefixChanged(c, log))
  {
  }
}
