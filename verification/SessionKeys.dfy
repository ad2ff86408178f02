/** When two sessions can share a correlation key: a separator inside a session may be read as the end of a
    shorter one. */
module SessionKeys {
  import opened Collections
  import opened Events

  function SessionText(session: Option<string>): string {
    if session.Some? then session.value else NULL_SESSION
  }

  /** A key's text after the session. */
  function KeyTail(k: Key): string {
    "::" + DirectionName(k.requestDir) + "::" + IdTypeName(k.id) + "::" + IdText(k.id)
  }

  /** How the key of a string id begins. */
  function StringHead(session: string, d: Direction): string {
    session + "::" + DirectionName(d) + "::string::"
  }

  /** Session `b` begins like a whole key head of session `a`, up to the id, so the id can be taken for the rest. */
  predicate Swallows(a: string, b: string) {
    exists d :: StringHead(a, d) <= b + "::"
  }

  predicate Share(a: string, b: string, k1: Key, k2: Key) {
    MakeCorrelationKey(Some(a), k1) == MakeCorrelationKey(Some(b), k2)
  }

  lemma KeyIsSessionAndTail(session: Option<string>, k: Key)
    ensures MakeCorrelationKey(session, k) == SessionText(session) + KeyTail(k)
  {
  }

  // ---------- what stands where in a key ----------

  /** The only places of a tail where a separator followed by a direction can stand, past the first. */
  predicate SeparatorAt(t: string, n: int) {
    && 0 < n && n + 3 < |t|
    && t[n] == ':' && t[n + 1] == ':' && (t[n + 2] == 'c' || t[n + 2] == 's') && t[n + 3] == '2'
  }

  lemma {:induction false} DecimalDigits(n: nat)
    ensures forall i :: 0 <= i < |Decimal(n)| ==> '0' <= Decimal(n)[i] <= '9'
    decreases n
  {
    if n >= 10 { DecimalDigits(n / 10); }
  }

  /** The text of a numeric id holds neither a separator nor a letter. */
  lemma NumberText(n: int)
    ensures var s := IdText(NumberId(n)); forall i :: 0 <= i < |s| ==> s[i] == '-' || '0' <= s[i] <= '9'
  {
    DecimalDigits(if n < 0 then -n else n);
  }

  lemma TailStart(k: Key)
    ensures
      var t := KeyTail(k);
      && |t| >= 13 && t[0] == ':' && t[1] == ':' && t[2] != ':' && t[3] == '2' && t[4] != ':' && t[5] == ':' && t[6] == ':'
      && t[7] != ':' && t[8] != ':' && t[8] != '2' && t[9] != ':' && t[10] != ':'
  {
    var d, ty := DirectionName(k.requestDir), IdTypeName(k.id);
    assert KeyTail(k) == ("::" + d + "::") + (ty + "::" + IdText(k.id));
    assert |d| == 3 && d[0] != ':' && d[1] == '2' && d[2] != ':';
    assert |ty| >= 4 && forall i :: 0 <= i < |ty| ==> ty[i] != ':' && ty[i] != '2';
  }

  lemma TailAfterType(k: Key)
    ensures
      var t, m := KeyTail(k), 7 + |IdTypeName(k.id)|;
      && |t| == m + 2 + |IdText(k.id)| && t[m] == ':' && t[m + 1] == ':' && t[m + 2..] == IdText(k.id)
      && forall i :: 7 <= i < m ==> t[i] != ':'
  {
    var ty := IdTypeName(k.id);
    assert KeyTail(k) == ("::" + DirectionName(k.requestDir) + "::") + ty + "::" + IdText(k.id);
    assert forall i :: 0 <= i < |ty| ==> ty[i] != ':';
  }

  lemma IdLetters(id: Id)
    requires !id.StringId?
    ensures var s := IdText(id); forall i :: 0 <= i < |s| ==> s[i] != ':' && s[i] != 'c' && s[i] != 's'
  {
    match id
    case NumberId(n) => NumberText(n);
    case NullId =>
    case StringId(_) =>
  }

  lemma TailLetters(k: Key)
    requires !k.id.StringId?
    ensures var t := KeyTail(k); forall i :: 9 + |IdTypeName(k.id)| <= i < |t| ==> t[i] != ':' && t[i] != 'c' && t[i] != 's'
  {
    var t, m := KeyTail(k), 9 + |IdTypeName(k.id)|;
    TailAfterType(k);
    IdLetters(k.id);
    assert forall i :: m <= i < |t| ==> t[i] == t[m..][i - m];
  }

  /** A separator followed by a direction stands only inside a string id, or right before it. */
  lemma SeparatorInStringId(k: Key, n: int)
    requires SeparatorAt(KeyTail(k), n)
    ensures k.id.StringId? && n >= 13
  {
    TailStart(k);
    TailAfterType(k);
    if !k.id.StringId? { TailLetters(k); }
  }

  // ---------- when two sessions can share a key ----------

  lemma SharedKeyCuts(a: string, b: string, k1: Key, k2: Key)
    requires |a| < |b| && Share(a, b, k1, k2)
    ensures SeparatorAt(KeyTail(k1), |b| - |a|)
    ensures a + KeyTail(k1) == b + KeyTail(k2)
  {
    KeyIsSessionAndTail(Some(a), k1);
    KeyIsSessionAndTail(Some(b), k2);
    TailStart(k2);
    var x, y, n := a + KeyTail(k1), b + KeyTail(k2), |b| - |a|;
    assert x == y;
    assert forall i :: 0 <= i < |KeyTail(k2)| ==> KeyTail(k1)[n + i] == x[|b| + i] == y[|b| + i] == KeyTail(k2)[i];
    DirectionStarts(k2);
  }

  lemma DirectionStarts(k: Key)
    ensures var t := KeyTail(k); |t| >= 13 && (t[2] == 'c' || t[2] == 's')
  {
    TailStart(k);
    assert KeyTail(k)[2] == DirectionName(k.requestDir)[0];
  }

  lemma StringTail(k: Key)
    requires k.id.StringId?
    ensures KeyTail(k) == StringHead("", k.requestDir) + k.id.s
    ensures |StringHead("", k.requestDir)| == 15
  {
  }

  /** Where a key of a string id is cut between head and id. */
  lemma HeadOfKey(a: string, k: Key, x: string)
    requires k.id.StringId? && x == a + KeyTail(k)
    ensures |x| >= |a| + 15 && StringHead(a, k.requestDir) == x[..|a| + 15]
  {
    StringTail(k);
    var u := StringHead("", k.requestDir);
    assert StringHead(a, k.requestDir) == a + u;
    HeadIsPrefix(a, u, k.id.s, x);
  }

  lemma HeadIsPrefix(a: string, u: string, v: string, x: string)
    requires x == a + (u + v)
    ensures |x| >= |a| + |u| && a + u == x[..|a| + |u|]
  {
  }

  lemma SeparatorOfKey(b: string, k: Key, x: string)
    requires x == b + KeyTail(k)
    ensures |x| >= |b| + 2 && b + "::" == x[..|b| + 2]
  {
    TailStart(k);
  }

  lemma SharedKeySwallows(a: string, b: string, k1: Key, k2: Key)
    requires |a| < |b| && Share(a, b, k1, k2)
    ensures Swallows(a, b)
  {
    SharedKeyCuts(a, b, k1, k2);
    SeparatorInStringId(k1, |b| - |a|);
    var x := a + KeyTail(k1);
    HeadOfKey(a, k1, x);
    SeparatorOfKey(b, k2, x);
    assert x[..|a| + 15] <= x[..|b| + 2];
  }

  lemma KeyOfText(a: string, d: Direction, rest: string)
    ensures MakeCorrelationKey(Some(a), Key(d, StringId(rest))) == StringHead(a, d) + rest
  {
  }

  lemma SwallowingShares(a: string, b: string)
    requires Swallows(a, b)
    ensures a != b && exists k1, k2 :: Share(a, b, k1, k2)
  {
    var d :| StringHead(a, d) <= b + "::";
    var h, e := StringHead(a, d), StringHead(b, C2S);
    assert b + "::" <= e && |h| == |a| + 15;
    KeyOfText(a, d, e[|h|..]);
    KeyOfText(b, C2S, "");
    assert h + e[|h|..] == e == e + "";
    assert Share(a, b, Key(d, StringId(e[|h|..])), Key(C2S, StringId("")));
  }

  /** Two different sessions share a key text exactly when one swallows the other. */
  lemma SessionsCollideIff(a: string, b: string)
    requires a != b
    ensures (exists k1, k2 :: Share(a, b, k1, k2)) <==> Swallows(a, b) || Swallows(b, a)
  {
    if k1, k2 :| Share(a, b, k1, k2) {
      KeyIsSessionAndTail(Some(a), k1);
      KeyIsSessionAndTail(Some(b), k2);
      if |a| == |b| {
        ConcatCancels(a, b, KeyTail(k1), KeyTail(k2));
      } else if |a| < |b| {
        SharedKeySwallows(a, b, k1, k2);
      } else {
        assert Share(b, a, k2, k1);
        SharedKeySwallows(b, a, k2, k1);
      }
    }
    if Swallows(a, b) {
      SwallowingShares(a, b);
    } else if Swallows(b, a) {
      SwallowingShares(b, a);
      var k1, k2 :| Share(b, a, k1, k2);
      assert Share(a, b, k2, k1);
    }
  }

  /** The key text determines session, request direction, id type and id. */
  ghost predicate KeysDetermine(s1: Option<string>, s2: Option<string>) {
    forall k1, k2 :: MakeCorrelationKey(s1, k1) == MakeCorrelationKey(s2, k2) ==> s1 == s2 && k1 == k2
  }

  /** The exact condition under which the keys of two sessions are never confused: it is one session, or their
      texts differ (a missing session has a text too) and neither swallows the other. */
  lemma KeyInjectiveAcrossSessions(s1: Option<string>, s2: Option<string>)
    ensures
      var a, b := SessionText(s1), SessionText(s2);
      KeysDetermine(s1, s2) <==> s1 == s2 || (a != b && !Swallows(a, b) && !Swallows(b, a))
  {
    var a, b := SessionText(s1), SessionText(s2);
    if s1 == s2 {
      forall k1, k2 ensures MakeCorrelationKey(s1, k1) == MakeCorrelationKey(s2, k2) ==> k1 == k2 {
        KeyInjective(s1, k1, k2);
      }
    } else if a == b {
      var k := Key(C2S, NullId);
      assert MakeCorrelationKey(s1, k) == MakeCorrelationKey(s2, k);
    } else {
      SessionsCollideIff(a, b);
      SharedTexts(s1, s2, a, b);
    }
  }

  lemma SharedTexts(s1: Option<string>, s2: Option<string>, a: string, b: string)
    requires a == SessionText(s1) && b == SessionText(s2) && s1 != s2
    ensures KeysDetermine(s1, s2) <==> !exists k1, k2 :: Share(a, b, k1, k2)
  {
    assert forall k1, k2 :: Share(a, b, k1, k2) <==> MakeCorrelationKey(s1, k1) == MakeCorrelationKey(s2, k2);
  }

  lemma SwallowedHasSeparator(a: string, b: string)
    requires Swallows(a, b)
    ensures |a| + 1 < |b| && b[|a|] == ':' && b[|a| + 1] == ':'
  {
    var d :| StringHead(a, d) <= b + "::";
    var h := StringHead(a, d);
    assert |h| == |a| + 15 && h[|a|] == ':' && h[|a| + 1] == ':';
    assert b[|a|] == h[|a|] && b[|a| + 1] == h[|a| + 1];
  }

  /** A session in which no separator occurs is swallowed by none. */
  lemma SeparatorFreeIsSafe(a: string, b: string)
    requires forall i :: 0 <= i && i + 1 < |b| ==> !(b[i] == ':' && b[i + 1] == ':')
    ensures !Swallows(a, b)
  {
    if Swallows(a, b) { SwallowedHasSeparator(a, b); }
  }

  /** Such a pair exists: the separator inside the second session is read as the end of the first. */
  lemma SessionsCanCollide()
    ensures Share("a", "a::c2s::string::", Key(C2S, StringId("::c2s::string::")), Key(C2S, StringId("")))
  {
    KeyOfText("a", C2S, "::c2s::string::");
    KeyOfText("a::c2s::string::", C2S, "");
  }
}
