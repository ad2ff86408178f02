/** Rows, the payloads that carry them to a client, and what a client makes of them. */
module Frames {
  import opened Collections
  import opened Events
  import opened CorrelatorSpec

  datatype LatencyBand = Fast | Normal | Slow | Critical

  function BandFor(latencyMs: Option<int>): Option<LatencyBand> {
    match latencyMs
    case None => None
    case Some(ms) =>
      if ms < 0 then None
      else if ms < 50 then Some(Fast)
      else if ms < 200 then Some(Normal)
      else if ms < 1000 then Some(Slow)
      else Some(Critical)
  }

  /** `source` stands for everything a row shows that depends on its event alone. */
  datatype Row = Row(
    idx: nat, source: Event,
    serverSeq: Option<int>, previousServerSeq: Option<int>, gapBefore: bool,
    status: Status, latencyMs: Option<int>, latencyBand: Option<LatencyBand>, pairIdx: Option<int>)

  datatype Update = Update(
    idx: nat, status: Status, latencyMs: Option<int>, latencyBand: Option<LatencyBand>, pairIdx: Option<int>)

  datatype LoadPhase = NotLoading | Loading | Loaded

  datatype Payload =
    | SnapshotBegin(total: nat)
    | SnapshotChunk(chunk: seq<Row>, at: nat)
    | SnapshotEnd
    | Append(rows: seq<Row>, from: nat)
    | LoadProgress(phase: LoadPhase, loadedRows: nat)
    | StreamBacklog(queuedFrames: nat, queuedRows: nat)
    | Patch(updates: seq<Update>)
    | Ping
    | Bye
    | StreamError(code: string)
    | Rotation(newSize: nat)
    | WatchError(code: string)
    | LogReset

  // ---------- the client ----------

  type View = seq<Row>

  /** Rows placed at a position overwrite what is there and extend the view; a hole is never made. */
  function Place(view: View, from: nat, rows: seq<Row>): View {
    if from > |view| then view
    else view[..from] + rows + (if from + |rows| <= |view| then view[from + |rows|..] else [])
  }

  function PatchOne(view: View, u: Update): View {
    if u.idx < |view|
    then view[u.idx := view[u.idx].(status := u.status, latencyMs := u.latencyMs, latencyBand := u.latencyBand, pairIdx := u.pairIdx)]
    else view
  }

  function PatchAll(view: View, updates: seq<Update>): (r: View)
    ensures |r| == |view|
    decreases |updates|
  {
    if |updates| == 0 then view else PatchAll(PatchOne(view, updates[0]), updates[1..])
  }

  function Apply(view: View, p: Payload): View {
    match p
    case SnapshotBegin(_) => []
    case SnapshotChunk(chunk, at) => Place(view, at, chunk)
    case Append(rows, from) => Place(view, from, rows)
    case Patch(updates) => PatchAll(view, updates)
    case Rotation(_) => []
    case _ => view
  }

  function ApplyAll(view: View, payloads: seq<Payload>): View
    decreases |payloads|
  {
    if |payloads| == 0 then view else ApplyAll(Apply(view, payloads[0]), payloads[1..])
  }

  // ---------- laws ----------

  lemma {:induction false} ApplyAllConcat(view: View, a: seq<Payload>, b: seq<Payload>)
    ensures ApplyAll(view, a + b) == ApplyAll(ApplyAll(view, a), b)
    decreases |a|
  {
    if |a| == 0 {
      assert a + b == b;
    } else {
      assert (a + b)[1..] == a[1..] + b;
      ApplyAllConcat(Apply(view, a[0]), a[1..], b);
    }
  }

  lemma ApplyOne(view: View, p: Payload)
    ensures ApplyAll(view, [p]) == Apply(view, p)
  {
    assert [p][1..] == [];
  }

  lemma {:induction false} PatchAllConcat(view: View, a: seq<Update>, b: seq<Update>)
    ensures PatchAll(view, a + b) == PatchAll(PatchAll(view, a), b)
    decreases |a|
  {
    if |a| == 0 {
      assert a + b == b;
    } else {
      assert (a + b)[1..] == a[1..] + b;
      PatchAllConcat(PatchOne(view, a[0]), a[1..], b);
    }
  }

  lemma PlaceConcat(view: View, from: nat, a: seq<Row>, b: seq<Row>)
    ensures Place(Place(view, from, a), from + |a|, b) == Place(view, from, a + b)
  {
    if from <= |view| {
      var v := Place(view, from, a);
      assert v[..from + |a|] == view[..from] + a;
    }
  }
}
