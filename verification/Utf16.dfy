/** Text as UTF-16 code units, and its length in UTF-8 octets (section 3 of RFC 3629). */
module Utf16 {

  type CodeUnit = u: int | 0 <= u < 0x1_0000
  type Text = seq<CodeUnit>

  const LF: CodeUnit := 0x0A
  const CR: CodeUnit := 0x0D
  const BOM: CodeUnit := 0xFEFF

  predicate IsHigh(u: CodeUnit) { 0xD800 <= u <= 0xDBFF }

  predicate IsLow(u: CodeUnit) { 0xDC00 <= u <= 0xDFFF }

  /** No high surrogate is left without its low surrogate. A streaming decoder produces only such text. */
  ghost predicate Paired(s: Text) {
    forall i :: 0 <= i < |s| && IsHigh(s[i]) ==> i + 1 < |s| && IsLow(s[i + 1])
  }

  // ---------- reference definition ----------

  /** Code units taken by the first character of `s`. */
  function Width(s: Text): (w: nat)
    requires |s| > 0
    ensures 1 <= w <= |s|
  {
    if |s| > 1 && IsHigh(s[0]) && IsLow(s[1]) then 2 else 1
  }

  /** The first character of `s`; an unpaired surrogate reads as U+FFFD. */
  function Scalar(s: Text): (c: nat)
    requires |s| > 0
    ensures c <= 0x10_FFFF && !(0xD800 <= c <= 0xDFFF)
  {
    if Width(s) == 2 then
      var high: int := s[0];
      var low: int := s[1];
      0x1_0000 + (high - 0xD800) * 0x400 + (low - 0xDC00)
    else if IsHigh(s[0]) || IsLow(s[0]) then 0xFFFD
    else s[0]
  }

  /** Octets that UTF-8 uses for one character. */
  function Octets(c: nat): nat {
    if c <= 0x7F then 1 else if c <= 0x7FF then 2 else if c <= 0xFFFF then 3 else 4
  }

  /** Octets that UTF-8 uses for `s`. */
  function Utf8Length(s: Text): nat {
    if |s| == 0 then 0 else Octets(Scalar(s)) + Utf8Length(s[Width(s)..])
  }

  // ---------- laws ----------

  lemma PairedSlices(s: Text, i: nat)
    requires Paired(s) && i <= |s|
    requires i == 0 || !IsHigh(s[i - 1])
    ensures Paired(s[..i]) && Paired(s[i..])
  {
    var a := s[..i];
    forall j | 0 <= j < |a| && IsHigh(a[j]) ensures j + 1 < |a| && IsLow(a[j + 1]) {
      assert s[j] == a[j];
    }
  }

  lemma PairedConcat(a: Text, b: Text)
    requires Paired(a) && Paired(b)
    ensures Paired(a + b)
  {
    var s := a + b;
    forall j | 0 <= j < |s| && IsHigh(s[j]) ensures j + 1 < |s| && IsLow(s[j + 1]) {
      if j < |a| {
        assert s[j] == a[j] && s[j + 1] == a[j + 1];
      } else {
        assert s[j] == b[j - |a|] && s[j + 1] == b[j + 1 - |a|];
      }
    }
  }

  // ---------- the splitter's own count ----------

  /** What the counting loop charges for any sequence of code units: it steps over whatever follows a
      high surrogate. */
  function ByteCount(s: Text): nat {
    if |s| == 0 then 0
    else if s[0] < 0x80 then 1 + ByteCount(s[1..])
    else if s[0] < 0x800 then 2 + ByteCount(s[1..])
    else if IsHigh(s[0]) then 4 + (if |s| == 1 then 0 else ByteCount(s[2..]))
    else 3 + ByteCount(s[1..])
  }

  method Utf8ByteLength(s: Text) returns (bytes: nat)
    ensures bytes == ByteCount(s)
  {
    bytes := 0;
    var i := 0;
    while i < |s|
      invariant 0 <= i
      invariant bytes + (if i <= |s| then ByteCount(s[i..]) else 0) == ByteCount(s)
    {
      var c := s[i];
      if c < 0x80 {
        bytes := bytes + 1;
      } else if c < 0x800 {
        bytes := bytes + 2;
      } else if 0xD800 <= c <= 0xDBFF {
        bytes := bytes + 4;
        assert i + 1 < |s| ==> s[i..][2..] == s[i + 2..];
        i := i + 1;
      } else {
        bytes := bytes + 3;
      }
      assert i < |s| ==> s[i..][1..] == s[i + 1..];
      i := i + 1;
    }
  }

  /** On paired text the loop counts exactly the octets of UTF-8. */
  lemma {:induction false} ByteCountIsUtf8(s: Text)
    requires Paired(s)
    ensures ByteCount(s) == Utf8Length(s)
  {
    if |s| > 0 {
      var w := Width(s);
      assert IsHigh(s[0]) ==> |s| > 1 && IsLow(s[1]);
      if w == 2 { assert !IsHigh(s[1]); }
      PairedSlices(s, w);
      ByteCountIsUtf8(s[w..]);
    }
  }

  /** On unpaired text it is not: a lone high surrogate is charged 4 octets where an encoder writes the
      3 octets of U+FFFD. */
  lemma LoneHighSurrogateMiscounted()
    ensures ByteCount([0xD800]) == 4 && Utf8Length([0xD800]) == 3
  {
    var s: Text := [0xD800];
    assert s[Width(s)..] == [];
  }

  lemma ByteCountConcat(a: Text, b: Text)
    requires Paired(a)
    ensures ByteCount(a + b) == ByteCount(a) + ByteCount(b)
    decreases |a|
  {
    if |a| == 0 {
      assert a + b == b;
    } else {
      var w := Width(a);
      assert IsHigh(a[0]) ==> |a| > 1 && IsLow(a[1]);
      if w == 2 { assert !IsHigh(a[1]); }
      assert (a + b)[w..] == a[w..] + b;
      PairedSlices(a, w);
      ByteCountConcat(a[w..], b);
    }
  }
}
