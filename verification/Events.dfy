/** The normalized event and the key that pairs a response with its request. */
module Events {
  import opened Collections

  datatype Direction = C2S | S2C

  datatype EventKind =
    | Request | Response | ClientNotification | ServerNotification
    | Action | ProtocolNotification | Log | ParseError

  /** A JSON-RPC id; the constructor is the type tag the event carries beside it. */
  datatype Id = NumberId(n: int) | StringId(s: string) | NullId

  /** `failed` says whether the payload has an `error` member; `text` is the lower-cased searchable text.
      The payload itself stays opaque. */
  datatype Event = Event(
    seqNo: nat, ts: int, tsRaw: string, kind: EventKind, dir: Direction, method_: Option<string>, id: Id,
    sessionId: Option<string>, actionType: Option<string>, serverSeq: Option<int>, byteOffset: nat, byteLength: nat, failed: bool, text: string)

  // ---------- correlation keys ----------

  const NULL_SESSION: string := "\U{2205}"

  function DirectionName(d: Direction): string {
    match d case C2S => "c2s" case S2C => "s2c"
  }

  function IdTypeName(id: Id): string {
    match id case NumberId(_) => "number" case StringId(_) => "string" case NullId => "null"
  }

  function Digit(d: nat): char
    requires d < 10
  {
    '0' + d as char
  }

  function Decimal(n: nat): (s: string)
    ensures |s| > 0
  {
    if n < 10 then [Digit(n)] else Decimal(n / 10) + [Digit(n % 10)]
  }

  function IdText(id: Id): string {
    match id
    case NumberId(n) => if n < 0 then "-" + Decimal(-n) else Decimal(n)
    case StringId(s) => s
    case NullId => "null"
  }

  /** What a correlation key stands for. The maps of the program are keyed by its text; since the text
      determines the parts (`KeyInjective`), the model keys its maps by the parts. */
  datatype Key = Key(requestDir: Direction, id: Id)

  function MakeCorrelationKey(session: Option<string>, key: Key): string {
    (if session.Some? then session.value else NULL_SESSION)
      + "::" + DirectionName(key.requestDir) + "::" + IdTypeName(key.id) + "::" + IdText(key.id)
  }

  function KeyForRequest(ev: Event): Key {
    Key(ev.dir, ev.id)
  }

  function Opposite(d: Direction): Direction {
    if d == C2S then S2C else C2S
  }

  /** A response travels against its request, so the direction is inverted. */
  function KeyForResponse(ev: Event): Key {
    Key(Opposite(ev.dir), ev.id)
  }

  /** The key of an event that takes part in pairing. */
  function KeyOf(ev: Event): Key {
    if ev.kind == Response then KeyForResponse(ev) else KeyForRequest(ev)
  }

  /** The value that `Decimal` writes. */
  function Value(s: string): int
    decreases |s|
  {
    if |s| == 0 then 0 else Value(s[..|s| - 1]) * 10 + (s[|s| - 1] as int - '0' as int)
  }

  lemma {:induction false} DecimalValue(n: nat)
    ensures Value(Decimal(n)) == n
    ensures '0' <= Decimal(n)[0] <= '9'
  {
    if n >= 10 {
      DecimalValue(n / 10);
      var s := Decimal(n);
      assert s[..|s| - 1] == Decimal(n / 10);
    } else {
      assert Value([]) == 0;
    }
  }

  lemma IdTextInjective(a: Id, b: Id)
    requires IdTypeName(a) == IdTypeName(b) && IdText(a) == IdText(b)
    ensures a == b
  {
    SameTag(a, b);
    match a
    case NumberId(m) =>
      var n := b.n;
      DecimalValue(if m < 0 then -m else m);
      DecimalValue(if n < 0 then -n else n);
      assert m < 0 <==> IdText(a)[0] == '-';
      assert n < 0 <==> IdText(b)[0] == '-';
      if m < 0 {
        assert IdText(a)[1..] == Decimal(-m) && IdText(b)[1..] == Decimal(-n);
      }
    case StringId(_) =>
    case NullId =>
  }

  lemma SameTag(a: Id, b: Id)
    requires IdTypeName(a) == IdTypeName(b)
    ensures a.NumberId? == b.NumberId? && a.StringId? == b.StringId?
  {
    assert "number"[0] != "string"[0] && "null" != "number" && "null"[0] != "string"[0];
  }

  lemma ConcatCancels(a: string, b: string, x: string, y: string)
    requires |a| == |b| && a + x == b + y
    ensures a == b && x == y
  {
    assert (a + x)[..|a|] == a && (b + y)[..|b|] == b;
    assert (a + x)[|a|..] == x && (b + y)[|b|..] == y;
  }

  /** For one session, the text of a key determines the request direction, the id type and the id. */
  lemma KeyInjective(session: Option<string>, k1: Key, k2: Key)
    ensures MakeCorrelationKey(session, k1) == MakeCorrelationKey(session, k2) <==> k1 == k2
  {
    var s := if session.Some? then session.value else NULL_SESSION;
    var x, y := MakeCorrelationKey(session, k1), MakeCorrelationKey(session, k2);
    if x == y {
      var t1, t2 := IdTypeName(k1.id) + "::" + IdText(k1.id), IdTypeName(k2.id) + "::" + IdText(k2.id);
      var d1, d2 := DirectionName(k1.requestDir), DirectionName(k2.requestDir);
      KeyParts(s, k1.requestDir, k1.id);
      KeyParts(s, k2.requestDir, k2.id);
      ConcatCancels(s + "::", s + "::", d1 + ("::" + t1), d2 + ("::" + t2));
      ConcatCancels(d1, d2, "::" + t1, "::" + t2);
      ConcatCancels("::", "::", t1, t2);
      assert "c2s"[0] != "s2c"[0];
      TypedIdInjective(k1.id, k2.id);
    }
  }

  lemma KeyParts(s: string, d: Direction, id: Id)
    ensures s + "::" + DirectionName(d) + "::" + IdTypeName(id) + "::" + IdText(id)
         == (s + "::") + (DirectionName(d) + ("::" + (IdTypeName(id) + "::" + IdText(id))))
  {
  }

  lemma TypedIdInjective(a: Id, b: Id)
    requires IdTypeName(a) + "::" + IdText(a) == IdTypeName(b) + "::" + IdText(b)
    ensures a == b
  {
    TypedIdParts(a);
    TypedIdParts(b);
    ConcatCancels(IdTypeName(a), IdTypeName(b), "::" + IdText(a), "::" + IdText(b));
    ConcatCancels("::", "::", IdText(a), IdText(b));
    IdTextInjective(a, b);
  }

  lemma TypedIdParts(a: Id)
    ensures
      var x, s := IdTypeName(a), IdTypeName(a) + "::" + IdText(a);
      s == x + ("::" + IdText(a)) && |x| > 2 && |s| > 2 && s[0] == x[0] && s[2] == x[2]
  {
  }

  /** A request and a response get the same key text exactly when they travel in opposite directions
      with the same typed id. */
  lemma PairKeys(req: Event, resp: Event)
    ensures MakeCorrelationKey(None, KeyForRequest(req)) == MakeCorrelationKey(None, KeyForResponse(resp))
       <==> req.dir != resp.dir && req.id == resp.id
  {
    KeyInjective(None, KeyForRequest(req), KeyForResponse(resp));
  }
}
