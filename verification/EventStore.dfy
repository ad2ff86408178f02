/** Append-only columns and their side indexes. */
module EventStore {
  import opened Collections
  import opened Events

  /** The positions at which a column holds `k`, in order. */
  function Positions<K(==)>(column: seq<K>, k: K): (r: seq<nat>)
    ensures forall j :: 0 <= j < |r| ==> r[j] < |column| && column[r[j]] == k
  {
    if |column| == 0 then []
    else
      var before := Positions(column[..|column| - 1], k);
      if column[|column| - 1] == k then before + [|column| - 1] else before
  }

  /** No position is missed, and none is listed twice. */
  lemma {:induction false} PositionsComplete<K>(column: seq<K>, k: K)
    ensures forall i: nat :: i < |column| && column[i] == k ==> i in Positions(column, k)
    ensures forall a, b :: 0 <= a < b < |Positions(column, k)| ==> Positions(column, k)[a] < Positions(column, k)[b]
    decreases |column|
  {
    if |column| > 0 {
      PositionsComplete(column[..|column| - 1], k);
    }
  }

  lemma PositionsSnoc<K>(column: seq<K>, x: K, k: K)
    ensures Positions(column + [x], k) == Positions(column, k) + if x == k then [|column|] else []
  {
    assert (column + [x])[..|column|] == column;
  }

  /** A side index lists, for every key it knows, the positions of that key; it knows the keys that occur. */
  ghost predicate Indexes<K(!new)>(index: map<K, seq<nat>>, column: seq<K>) {
    && (forall k :: k in index ==> index[k] == Positions(column, k))
    && (forall k :: k in column ==> k in index)
  }

  function PushIndex<K(==)>(index: map<K, seq<nat>>, k: K, i: nat): map<K, seq<nat>> {
    if k in index then index[k := index[k] + [i]] else index[k := [i]]
  }

  lemma PositionsAbsent<K>(column: seq<K>, k: K)
    requires k !in column
    ensures Positions(column, k) == []
  {
  }

  lemma PushIndexKeeps<K(!new)>(index: map<K, seq<nat>>, column: seq<K>, x: K)
    requires Indexes(index, column)
    ensures Indexes(PushIndex(index, x, |column|), column + [x])
  {
    forall k ensures Positions(column + [x], k) == Positions(column, k) + if x == k then [|column|] else [] {
      PositionsSnoc(column, x, k);
    }
    if x !in index { PositionsAbsent(column, x); }
  }

  /** The method index leaves out events without a method. */
  ghost predicate MethodIndexes(index: map<string, seq<nat>>, column: seq<Option<string>>) {
    && (forall m :: m in index ==> index[m] == Positions(column, Some(m)))
    && (forall m :: Some(m) in column ==> m in index)
  }

  function PushMethod(index: map<string, seq<nat>>, m: Option<string>, i: nat): map<string, seq<nat>> {
    if m.Some? then PushIndex(index, m.value, i) else index
  }

  lemma PushMethodKeeps(index: map<string, seq<nat>>, column: seq<Option<string>>, m: Option<string>)
    requires MethodIndexes(index, column)
    ensures MethodIndexes(PushMethod(index, m, |column|), column + [m])
  {
    forall k: string ensures Positions(column + [m], Some(k)) == Positions(column, Some(k)) + if m == Some(k) then [|column|] else [] {
      PositionsSnoc(column, m, Some(k));
    }
    if m.Some? && m.value !in index { PositionsAbsent(column, m); }
  }

  // ---------- the columns, in groups ----------

  ghost predicate Times(es: seq<Event>, seqNo: seq<nat>, ts: seq<int>, tsRaw: seq<string>) {
    && |seqNo| == |ts| == |tsRaw| == |es|
    && forall i :: 0 <= i < |es| ==> seqNo[i] == es[i].seqNo && ts[i] == es[i].ts && tsRaw[i] == es[i].tsRaw
  }

  ghost predicate Kinds(es: seq<Event>, kind: seq<EventKind>, dir: seq<Direction>, method_: seq<Option<string>>) {
    && |kind| == |dir| == |method_| == |es|
    && forall i :: 0 <= i < |es| ==> kind[i] == es[i].kind && dir[i] == es[i].dir && method_[i] == es[i].method_
  }

  ghost predicate Ids(es: seq<Event>, id: seq<Id>, sessionId: seq<Option<string>>, actionType: seq<Option<string>>) {
    && |id| == |sessionId| == |actionType| == |es|
    && forall i :: 0 <= i < |es| ==> id[i] == es[i].id && sessionId[i] == es[i].sessionId && actionType[i] == es[i].actionType
  }

  ghost predicate Bytes(es: seq<Event>, serverSeq: seq<Option<int>>, byteOffset: seq<nat>, byteLength: seq<nat>) {
    && |serverSeq| == |byteOffset| == |byteLength| == |es|
    && forall i :: 0 <= i < |es| ==>
         serverSeq[i] == es[i].serverSeq && byteOffset[i] == es[i].byteOffset && byteLength[i] == es[i].byteLength
  }

  ghost predicate Sides(
      kind: seq<EventKind>, dir: seq<Direction>, method_: seq<Option<string>>,
      byKind: map<EventKind, seq<nat>>, byDir: map<Direction, seq<nat>>, byMethod: map<string, seq<nat>>) {
    Indexes(byKind, kind) && Indexes(byDir, dir) && MethodIndexes(byMethod, method_)
  }

  class EventStore {
    var events: seq<Event>
    var seqNo: seq<nat>
    var ts: seq<int>
    var tsRaw: seq<string>
    var kind: seq<EventKind>
    var dir: seq<Direction>
    var method_: seq<Option<string>>
    var id: seq<Id>
    var sessionId: seq<Option<string>>
    var actionType: seq<Option<string>>
    var serverSeq: seq<Option<int>>
    var byteOffset: seq<nat>
    var byteLength: seq<nat>
    var byKind: map<EventKind, seq<nat>>
    var byDir: map<Direction, seq<nat>>
    var byMethod: map<string, seq<nat>>

    /** The columns and side indexes agree with the events. */
    ghost predicate Valid()
      reads this
    {
      && Times(events, seqNo, ts, tsRaw) && Kinds(events, kind, dir, method_)
      && Ids(events, id, sessionId, actionType) && Bytes(events, serverSeq, byteOffset, byteLength)
      && Sides(kind, dir, method_, byKind, byDir, byMethod)
    }

    constructor ()
      ensures Valid() && events == []
    {
      events, seqNo, ts, tsRaw, kind, dir, method_ := [], [], [], [], [], [], [];
      id, sessionId, actionType, serverSeq, byteOffset, byteLength := [], [], [], [], [], [];
      byKind, byDir, byMethod := map[], map[], map[];
    }

    method At(i: nat) returns (ev: Option<Event>)
      ensures ev == if i < |events| then Some(events[i]) else None
    {
      if i < |events| { return Some(events[i]); } else { return None; }
    }

    method Append(ev: Event) returns (idx: nat)
      requires Valid()
      modifies this
      ensures Valid() && events == old(events) + [ev] && idx == |old(events)|
    {
      idx := |events|;
      var all := events + [ev];
      AppendPlain(ev, events, all);
      AppendKinds(ev, events, all);
      events := all;
    }

    /** The columns without side indexes. */
    method AppendPlain(ev: Event, ghost es: seq<Event>, ghost all: seq<Event>)
      requires Times(es, seqNo, ts, tsRaw) && Ids(es, id, sessionId, actionType) && Bytes(es, serverSeq, byteOffset, byteLength)
      requires all == es + [ev]
      modifies this`seqNo, this`ts, this`tsRaw, this`id, this`sessionId, this`actionType, this`serverSeq, this`byteOffset, this`byteLength
      ensures Times(all, seqNo, ts, tsRaw) && Ids(all, id, sessionId, actionType) && Bytes(all, serverSeq, byteOffset, byteLength)
    {
      AppendTimes(ev, es, all);
      AppendIds(ev, es, all);
      AppendBytes(ev, es, all);
    }

    method AppendTimes(ev: Event, ghost es: seq<Event>, ghost all: seq<Event>)
      requires Times(es, seqNo, ts, tsRaw)
      requires all == es + [ev]
      modifies this`seqNo, this`ts, this`tsRaw
      ensures Times(all, seqNo, ts, tsRaw)
    {
      seqNo, ts, tsRaw := seqNo + [ev.seqNo], ts + [ev.ts], tsRaw + [ev.tsRaw];
    }

    method AppendIds(ev: Event, ghost es: seq<Event>, ghost all: seq<Event>)
      requires Ids(es, id, sessionId, actionType)
      requires all == es + [ev]
      modifies this`id, this`sessionId, this`actionType
      ensures Ids(all, id, sessionId, actionType)
    {
      id, sessionId, actionType := id + [ev.id], sessionId + [ev.sessionId], actionType + [ev.actionType];
    }

    method AppendBytes(ev: Event, ghost es: seq<Event>, ghost all: seq<Event>)
      requires Bytes(es, serverSeq, byteOffset, byteLength)
      requires all == es + [ev]
      modifies this`serverSeq, this`byteOffset, this`byteLength
      ensures Bytes(all, serverSeq, byteOffset, byteLength)
    {
      serverSeq, byteOffset, byteLength := serverSeq + [ev.serverSeq], byteOffset + [ev.byteOffset], byteLength + [ev.byteLength];
    }

    /** The columns that have side indexes. */
    method AppendKinds(ev: Event, ghost es: seq<Event>, ghost all: seq<Event>)
      requires Kinds(es, kind, dir, method_)
      requires Sides(kind, dir, method_, byKind, byDir, byMethod)
      requires all == es + [ev]
      modifies this`kind, this`dir, this`method_, this`byKind, this`byDir, this`byMethod
      ensures Kinds(all, kind, dir, method_)
      ensures Sides(kind, dir, method_, byKind, byDir, byMethod)
    {
      var idx := |kind|;
      PushIndexKeeps(byKind, kind, ev.kind);
      PushIndexKeeps(byDir, dir, ev.dir);
      PushMethodKeeps(byMethod, method_, ev.method_);
      byKind := PushIndex(byKind, ev.kind, idx);
      byDir := PushIndex(byDir, ev.dir, idx);
      byMethod := PushMethod(byMethod, ev.method_, idx);
      kind, dir, method_ := kind + [ev.kind], dir + [ev.dir], method_ + [ev.method_];
    }

    method Reset()
      modifies this
      ensures Valid() && events == []
    {
      ClearTimes();
      ClearIds();
      ClearBytes();
      ClearKinds();
      events := [];
    }

    method ClearTimes()
      modifies this`seqNo, this`ts, this`tsRaw
      ensures Times([], seqNo, ts, tsRaw)
    {
      seqNo, ts, tsRaw := [], [], [];
    }

    method ClearIds()
      modifies this`id, this`sessionId, this`actionType
      ensures Ids([], id, sessionId, actionType)
    {
      id, sessionId, actionType := [], [], [];
    }

    method ClearBytes()
      modifies this`serverSeq, this`byteOffset, this`byteLength
      ensures Bytes([], serverSeq, byteOffset, byteLength)
    {
      serverSeq, byteOffset, byteLength := [], [], [];
    }

    method ClearKinds()
      modifies this`kind, this`dir, this`method_, this`byKind, this`byDir, this`byMethod
      ensures Kinds([], kind, dir, method_)
      ensures Sides(kind, dir, method_, byKind, byDir, byMethod)
    {
      kind, dir, method_ := [], [], [];
      byKind, byDir, byMethod := map[], map[], map[];
    }
  }
}
