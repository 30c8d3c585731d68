/**
 UTF-8 text as a sequence of octets: the syntax of byte sequences of section 4 of RFC 3629,
 and the two places where the agy bridge cuts such text at a byte offset.
 */
module Utf8 {
  import opened Common

  predicate Tail(s: Bytes, k: nat) {
    k < |s| && 0x80 <= s[k] <= 0xBF
  }

  predicate Second(s: Bytes, lo: Byte, hi: Byte) {
    1 < |s| && lo <= s[1] <= hi
  }

  /** Length of the well-formed character opening s, or 0 when there is none. */
  function RuneLen(s: Bytes): (n: nat)
    ensures n <= 4 && n <= |s|
  {
    if s == [] then 0
    else if s[0] <= 0x7F then 1
    else if 0xC2 <= s[0] <= 0xDF then (if Tail(s, 1) then 2 else 0)
    else if 0xE0 <= s[0] <= 0xEF then
      var second :=
        if s[0] == 0xE0 then Second(s, 0xA0, 0xBF)
        else if s[0] == 0xED then Second(s, 0x80, 0x9F)
        else Tail(s, 1);
      if second && Tail(s, 2) then 3 else 0
    else if 0xF0 <= s[0] <= 0xF4 then
      var second :=
        if s[0] == 0xF0 then Second(s, 0x90, 0xBF)
        else if s[0] == 0xF4 then Second(s, 0x80, 0x8F)
        else Tail(s, 1);
      if second && Tail(s, 2) && Tail(s, 3) then 4 else 0
    else 0
  }

  predicate ValidUtf8(s: Bytes) {
    s == [] || (RuneLen(s) > 0 && ValidUtf8(s[RuneLen(s)..]))
  }

  /** Go's `utf8.RuneStart`: not of the form 10xxxxxx. */
  predicate RuneStart(b: Byte) {
    !(0x80 <= b < 0xC0)
  }

  /** A byte offset between two characters. */
  predicate Boundary(s: Bytes, i: nat) {
    i <= |s| && ValidUtf8(s[..i]) && ValidUtf8(s[i..])
  }

  lemma RuneLenOfPrefix(s: Bytes, i: nat)
    requires RuneLen(s) <= i <= |s|
    ensures RuneLen(s) > 0 ==> RuneLen(s[..i]) == RuneLen(s)
  {
  }

  lemma RuneLenOfExtension(s: Bytes, more: Bytes)
    requires RuneLen(s) > 0
    ensures RuneLen(s + more) == RuneLen(s)
  {
  }

  lemma ContinuationInsideRune(s: Bytes, i: nat)
    requires 0 < i < RuneLen(s)
    ensures !RuneStart(s[i])
  {
  }

  lemma Slices(s: Bytes, n: nat, i: nat)
    requires n <= i <= |s|
    ensures s[..i][n..] == s[n..][..i - n]
    ensures s[i..] == s[n..][i - n..]
    ensures i < |s| ==> s[n..][i - n] == s[i]
  {
  }

  /** In valid text the offsets between characters are exactly those `RuneStart` accepts, and the end. */
  lemma {:induction false} BoundaryIff(s: Bytes, i: nat)
    requires ValidUtf8(s) && i <= |s|
    ensures Boundary(s, i) <==> (i == |s| || RuneStart(s[i]))
  {
    var n := RuneLen(s);
    if i == 0 {
      assert s[..0] == [] && s[0..] == s;
    } else if i < n {
      ContinuationInsideRune(s, i);
      assert s[i..][0] == s[i];
    } else {
      BoundaryIff(s[n..], i - n);
      RuneLenOfPrefix(s, i);
      Slices(s, n, i);
    }
  }

  lemma {:induction false} ValidSuffix(a: Bytes, b: Bytes)
    requires ValidUtf8(a) && ValidUtf8(a + b)
    ensures ValidUtf8(b)
  {
    if a == [] {
      assert a + b == b;
    } else {
      var n := RuneLen(a);
      RuneLenOfExtension(a, b);
      assert (a + b)[n..] == a[n..] + b;
      ValidSuffix(a[n..], b);
    }
  }

  /** The byte where valid text was left off stays between two characters however the text grows. */
  lemma GrowthBoundary(t: Bytes, grown: Bytes)
    requires ValidUtf8(t) && ValidUtf8(grown) && t <= grown
    ensures |t| == |grown| || RuneStart(grown[|t|])
  {
    assert grown == t + grown[|t|..];
    ValidSuffix(t, grown[|t|..]);
    assert grown[..|t|] == t;
    BoundaryIff(grown, |t|);
  }

  /** No more than three continuation bytes stand in a row. */
  lemma {:induction false} ContinuationRun(s: Bytes, i: nat, j: nat)
    requires ValidUtf8(s) && i <= j <= |s|
    requires forall k :: i <= k < j ==> !RuneStart(s[k])
    ensures j - i <= 3
  {
    if s == [] {
    } else {
      var n := RuneLen(s);
      assert RuneStart(s[0]);
      assert n < |s| ==> s[n..][0] == s[n] && RuneStart(s[n]);
      if i >= n {
        assert forall k :: i - n <= k < j - n ==> s[n..][k] == s[k + n];
        ContinuationRun(s[n..], i - n, j - n);
      }
    }
  }

  // ----- nextDelta -----

  /** The first offset at or after i that does not split a character. */
  function Snap(text: Bytes, i: nat): (start: nat)
    requires i <= |text|
    ensures i <= start <= |text|
    ensures start == |text| || RuneStart(text[start])
    ensures forall k :: i <= k < start ==> !RuneStart(text[k])
    decreases |text| - i
  {
    if i < |text| && !RuneStart(text[i]) then Snap(text, i + 1) else i
  }

  /** What `nextDelta` returns: the unsent part, and the new watermark. */
  function NextDelta(text: Bytes, emitted: nat): (Bytes, nat) {
    if emitted >= |text| then ([], |text|) else (text[Snap(text, emitted)..], |text|)
  }

  method ComputeNextDelta(text: Bytes, emitted: nat) returns (delta: Bytes, watermark: nat)
    ensures (delta, watermark) == NextDelta(text, emitted)
  {
    if emitted >= |text| {
      return [], |text|;
    }
    var start := emitted;
    while start < |text| && !RuneStart(text[start])
      invariant emitted <= start <= |text|
      invariant Snap(text, emitted) == Snap(text, start)
    {
      start := start + 1;
    }
    if start >= |text| {
      assert text[start..] == [];
      return [], |text|;
    }
    return text[start..], |text|;
  }

  /**
   On valid text, for any watermark at all, the delta is valid text, it is a suffix, at most three bytes
   between watermark and delta are left out, and the cut is the first possible one.
   */
  lemma NextDeltaCut(text: Bytes, emitted: nat)
    requires ValidUtf8(text)
    ensures var (delta, watermark) := NextDelta(text, emitted);
      && watermark == |text|
      && |delta| <= |text| && delta == text[|text| - |delta|..]
      && ValidUtf8(delta)
      && (emitted <= |text| ==>
        && 0 <= |text| - |delta| - emitted <= 3
        && forall k :: emitted <= k < |text| - |delta| ==> !Boundary(text, k))
      && (emitted > |text| ==> delta == [])
  {
    if emitted < |text| {
      var start := Snap(text, emitted);
      BoundaryIff(text, start);
      ContinuationRun(text, emitted, start);
      forall k | emitted <= k < start
        ensures !Boundary(text, k)
      {
        BoundaryIff(text, k);
      }
    }
  }

  /** A watermark left by an earlier reading of the same growing text is met exactly: nothing is left out. */
  lemma NextDeltaOfGrowth(sent: Bytes, text: Bytes)
    requires ValidUtf8(sent) && ValidUtf8(text) && sent <= text
    ensures NextDelta(text, |sent|) == (text[|sent|..], |text|)
    ensures sent + NextDelta(text, |sent|).0 == text
  {
    hide ValidUtf8, RuneStart;
    GrowthBoundary(sent, text);
    assert |sent| < |text| ==> Snap(text, |sent|) == |sent|;
    assert |sent| == |text| ==> text[|sent|..] == [];
    hide Snap;
    assert NextDelta(text, |sent|).0 == text[|sent|..];
  }

  // ----- truncateBytes -----

  function CutBack(s: Bytes, cut: nat): (c: nat)
    requires cut < |s|
    ensures c <= cut
    ensures c == 0 || RuneStart(s[c])
    ensures forall k :: c < k <= cut ==> !RuneStart(s[k])
  {
    if cut > 0 && !RuneStart(s[cut]) then CutBack(s, cut - 1) else cut
  }

  function TruncateBytes(s: Bytes, max: nat): (r: Bytes)
    ensures r <= s && |r| <= max
  {
    if |s| <= max then s else s[..CutBack(s, max)]
  }

  method ComputeTruncateBytes(s: Bytes, max: nat) returns (r: Bytes)
    ensures r == TruncateBytes(s, max)
  {
    if |s| <= max {
      return s;
    }
    var cut: nat := max;
    while cut > 0 && !RuneStart(s[cut])
      invariant cut <= max
      invariant CutBack(s, max) == CutBack(s, cut)
    {
      cut := cut - 1;
    }
    return s[..cut];
  }

  /** Of valid text, the longest valid prefix that fits. */
  lemma TruncateIsLongest(s: Bytes, max: nat)
    requires ValidUtf8(s)
    ensures ValidUtf8(TruncateBytes(s, max))
    ensures forall p: Bytes | p <= s && |p| <= max && ValidUtf8(p) :: |p| <= |TruncateBytes(s, max)|
  {
    if |s| > max {
      var cut := CutBack(s, max);
      assert RuneStart(s[0]);
      BoundaryIff(s, cut);
      forall p: Bytes | p <= s && |p| <= max && ValidUtf8(p)
        ensures |p| <= cut
      {
        GrowthBoundary(p, s);
      }
    }
  }

  // ----- against the encoding -----

  /** Unicode scalar values. */
  predicate Scalar(c: int) {
    0 <= c < 0xD800 || 0xE000 <= c < 0x11_0000
  }

  /** The encoding of section 3 of RFC 3629. */
  function Encode(c: int): (s: Bytes)
    requires Scalar(c)
  {
    if c < 0x80 then [c]
    else if c < 0x800 then [0xC0 + c / 64, 0x80 + c % 64]
    else if c < 0x1_0000 then [0xE0 + c / 4096, 0x80 + c / 64 % 64, 0x80 + c % 64]
    else [0xF0 + c / 262144, 0x80 + c / 4096 % 64, 0x80 + c / 64 % 64, 0x80 + c % 64]
  }

  lemma {:induction false} EncodedIsRune(c: int, tail: Bytes)
    requires Scalar(c)
    ensures RuneLen(Encode(c) + tail) == |Encode(c)| > 0
  {
    var s := Encode(c) + tail;
    assert forall k :: 0 <= k < |Encode(c)| ==> s[k] == Encode(c)[k];
  }

  /** The low six bits of a continuation byte. */
  function Low(b: Byte): int {
    b as int - 0x80
  }

  lemma Digits(a: nat, b: nat, c: nat, d: nat)
    requires b < 64 && c < 64 && d < 64
    ensures (a * 64 + b) / 64 == a && (a * 64 + b) % 64 == b
    ensures (a * 4096 + b * 64 + c) / 4096 == a && (a * 4096 + b * 64 + c) / 64 % 64 == b && (a * 4096 + b * 64 + c) % 64 == c
    ensures var n := a * 262144 + b * 4096 + c * 64 + d;
      n / 262144 == a && n / 4096 % 64 == b && n / 64 % 64 == c && n % 64 == d
  {
  }

  lemma {:induction false} RuneOfTwo(s: Bytes) returns (c: int)
    requires RuneLen(s) == 2
    ensures Scalar(c) && s[..2] == Encode(c)
  {
    var a: nat := s[0] as int - 0xC0;
    c := a * 64 + Low(s[1]);
    Digits(a, Low(s[1]), 0, 0);
    assert s[..2] == [s[0], s[1]];
  }

  lemma {:induction false} RuneOfThree(s: Bytes) returns (c: int)
    requires RuneLen(s) == 3
    ensures Scalar(c) && s[..3] == Encode(c)
  {
    var a: nat := s[0] as int - 0xE0;
    c := a * 4096 + Low(s[1]) * 64 + Low(s[2]);
    Digits(a, Low(s[1]), Low(s[2]), 0);
    assert s[..3] == [s[0], s[1], s[2]];
  }

  lemma {:induction false} RuneOfFour(s: Bytes) returns (c: int)
    requires RuneLen(s) == 4
    ensures Scalar(c) && s[..4] == Encode(c)
  {
    var a: nat := s[0] as int - 0xF0;
    c := a * 262144 + Low(s[1]) * 4096 + Low(s[2]) * 64 + Low(s[3]);
    Digits(a, Low(s[1]), Low(s[2]), Low(s[3]));
    assert s[..4] == [s[0], s[1], s[2], s[3]];
  }

  /** A well-formed character is the encoding of a scalar value. */
  lemma {:induction false} RuneIsEncoded(s: Bytes) returns (c: int)
    requires RuneLen(s) > 0
    ensures Scalar(c) && s[..RuneLen(s)] == Encode(c)
  {
    if RuneLen(s) == 1 {
      c := s[0];
    } else if RuneLen(s) == 2 {
      c := RuneOfTwo(s);
    } else if RuneLen(s) == 3 {
      c := RuneOfThree(s);
    } else {
      c := RuneOfFour(s);
    }
  }

  function EncodeAll(text: seq<int>): Bytes
    requires forall c :: c in text ==> Scalar(c)
  {
    if text == [] then [] else Encode(text[0]) + EncodeAll(text[1..])
  }

  /** Valid text is what encodes a sequence of scalar values, and nothing else is. */
  lemma {:induction false} EncodedIsValid(text: seq<int>)
    requires forall c :: c in text ==> Scalar(c)
    ensures ValidUtf8(EncodeAll(text))
  {
    if text != [] {
      var first, rest := Encode(text[0]), EncodeAll(text[1..]);
      EncodedIsValid(text[1..]);
      EncodedIsRune(text[0], rest);
      assert (first + rest)[|first|..] == rest;
    }
  }

  lemma {:induction false} ValidIsEncoded(s: Bytes) returns (text: seq<int>)
    requires ValidUtf8(s)
    ensures (forall c :: c in text ==> Scalar(c)) && EncodeAll(text) == s
  {
    if s == [] {
      text := [];
    } else {
      var n := RuneLen(s);
      var rest := ValidIsEncoded(s[n..]);
      var c := RuneIsEncoded(s);
      text := [c] + rest;
      assert text[1..] == rest && s == s[..n] + s[n..];
    }
  }
}
