/**
 The protobuf wire scanner of the agy bridge, against the encoder of its test stub.
 A blob is read with no schema: varints, then the first length-delimited field of a
 given number.
 */
module Wire {
  import opened Common
  import opened Bits

  // ----- varints -----

  const MAX_VARINT_SHIFT := 70

  /** The number spelled by base-128 digits, least significant first, with no width limit. */
  function Base128(s: Bytes): nat {
    if s == [] then 0 else s[0] % 128 + 128 * Base128(s[1..])
  }

  /** The first n bytes are one varint: a continuation bit on every byte but the last, at most ten bytes. */
  predicate IsVarint(buf: Bytes, n: nat) {
    && 0 < n <= 10 && n <= |buf|
    && buf[n - 1] < 128
    && forall k :: 0 <= k < n - 1 ==> buf[k] >= 128
  }

  /** Scanning on from an index: the number of bytes up to and including the last one of the varint, or 0. */
  function VarintLength(buf: Bytes, from: nat): (n: nat)
    ensures n <= |buf|
    decreases |buf| - from
  {
    if from >= |buf| || from >= 10 then 0
    else if buf[from] < 128 then from + 1
    else VarintLength(buf, from + 1)
  }

  lemma {:induction false} VarintLengthMeaning(buf: Bytes, from: nat)
    requires from <= |buf| && forall k :: 0 <= k < from ==> buf[k] >= 128
    ensures var n := VarintLength(buf, from);
            if n == 0 then forall m: nat :: !IsVarint(buf, m) else forall m: nat :: IsVarint(buf, m) <==> m == n
    decreases |buf| - from
  {
    if from < |buf| && from < 10 && buf[from] >= 128 {
      VarintLengthMeaning(buf, from + 1);
    }
  }

  /** The value and width of the varint opening buf, reduced to 64 bits as the source's `uint64` is. */
  function Varint(buf: Bytes): (r: Option<(UInt64, nat)>)
    ensures r.Some? ==> 0 < r.value.1 <= |buf|
  {
    var n := VarintLength(buf, 0);
    if n == 0 then None else Some((Base128(buf[..n]) % TWO_64, n))
  }

  lemma SevenMore(n: nat)
    ensures Pow2(7 * (n + 1)) == 128 * Pow2(7 * n)
  {
    Pow2Values();
    Pow2Add(7, 7 * n);
  }

  lemma {:induction false} Base128Snoc(s: Bytes, b: Byte)
    ensures Base128(s + [b]) == Base128(s) + (b % 128) * Pow2(7 * |s|)
  {
    if s == [] {
      assert [b][1..] == [];
    } else {
      assert (s + [b])[1..] == s[1..] + [b];
      hide Pow2;
      Base128Snoc(s[1..], b);
      var p := Pow2(7 * |s[1..]|);
      SevenMore(|s[1..]|);
      assert 128 * ((b % 128) * p) == (b % 128) * (128 * p);
    }
  }

  lemma {:induction false} Base128Bound(s: Bytes)
    ensures Base128(s) < Pow2(7 * |s|)
  {
    if s == [] {
    } else {
      Base128Bound(s[1..]);
      SevenMore(|s[1..]|);
    }
  }

  /** Go's `x << shift` on uint64, one place at a time: the digit pushed out at the top is lost. */
  function Shl64(x: UInt64, shift: nat): UInt64 {
    if shift == 0 then x else (2 * Shl64(x, shift - 1)) % TWO_64
  }

  lemma DoubleWraps(n: nat)
    ensures (2 * (n % TWO_64)) % TWO_64 == (2 * n) % TWO_64
  {
    var r := 2 * (n % TWO_64);
    ModOf(2 * n, 2 * (n / TWO_64) + r / TWO_64, TWO_64, r % TWO_64);
  }

  lemma Twice(x: nat, p: nat)
    ensures x * (2 * p) == 2 * (x * p)
  {
  }

  lemma {:induction false} Shl64Meaning(x: UInt64, shift: nat)
    ensures Shl64(x, shift) == (x * Pow2(shift)) % TWO_64
  {
    if shift == 0 {
    } else {
      Shl64Meaning(x, shift - 1);
      var p := Pow2(shift - 1);
      Twice(x, p);
      DoubleWraps(x * p);
    }
  }

  /** ORing a shifted digit into a 64-bit register adds it modulo 2^64 when the low digits do not reach it. */
  lemma OrIsWrappedSum(low: nat, x: UInt64, shift: nat)
    requires shift <= 63 && low < Pow2(shift)
    ensures BitOr(low, Shl64(x, shift)) == (low + x * Pow2(shift)) % TWO_64
  {
    Pow2Values();
    Shl64Meaning(x, shift);
    ShiftDropsHighDigits(x, shift, 64);
    var kept := x % Pow2(64 - shift);
    BitOrDisjoint(low, kept, shift);
    var n := x * Pow2(shift);
    ModOf(low + n, n / TWO_64, TWO_64, low + n % TWO_64);
  }

  lemma NineDigitsFit(s: Bytes)
    requires |s| <= 9
    ensures Base128(s) < Pow2(7 * |s|) <= TWO_63
  {
    hide Pow2, Base128;
    Base128Bound(s);
    Pow2Values();
    var rest := 63 - 7 * |s|;
    Pow2Add(7 * |s|, rest);
    assert Pow2(7 * |s|) * Pow2(rest) >= Pow2(7 * |s|) * 1;
  }

  /** One turn of the decoding loop. */
  lemma {:induction false} AccumulateDigit(s: Bytes, b: Byte, value: UInt64, shift: nat)
    requires |s| <= 9 && shift == 7 * |s|
    requires value == Base128(s) % TWO_64
    ensures BitOr(value, Shl64(b % 128, shift)) == Base128(s + [b]) % TWO_64
  {
    hide Base128, Pow2, BitOr, Shl64;
    NineDigitsFit(s);
    assert value == Base128(s);
    Base128Snoc(s, b);
    OrIsWrappedSum(value, b % 128, shift);
  }

  method ReadVarint(buf: Bytes) returns (value: UInt64, consumed: nat, ok: bool)
    ensures Varint(buf) == if ok then Some((value, consumed)) else None
    ensures !ok ==> value == 0 && consumed == 0
  {
    value := 0;
    var shift := 0;
    for i := 0 to |buf|
      invariant shift == 7 * i && i <= 10
      invariant forall k :: 0 <= k < i ==> buf[k] >= 128
      invariant value == Base128(buf[..i]) % TWO_64
      invariant VarintLength(buf, 0) == VarintLength(buf, i)
    {
      if shift >= MAX_VARINT_SHIFT {
        return 0, 0, false;
      }
      var b := buf[i];
      AccumulateDigit(buf[..i], b, value, shift);
      assert buf[..i] + [b] == buf[..i + 1];
      value := BitOr(value, Shl64(b % 128, shift));
      if b < 128 {
        return value, i + 1, true;
      }
      shift := shift + 7;
    }
    return 0, 0, false;
  }

  /** The stub's encoding of a number: seven bits a byte, least significant first. */
  function VarintBytes(v: nat): (s: Bytes)
    ensures |s| >= 1
  {
    if v < 128 then [v] else [v % 128 + 128] + VarintBytes(v / 128)
  }

  method PbVarint(value: UInt64) returns (out: Bytes)
    ensures out == VarintBytes(value)
  {
    out := [];
    var v: nat := value;
    while v >= 128
      invariant VarintBytes(value) == out + VarintBytes(v)
    {
      out := out + [v % 128 + 128];
      v := v / 128;
    }
    out := out + [v];
  }

  lemma {:induction false} VarintBytesMeaning(v: nat)
    ensures Base128(VarintBytes(v)) == v
  {
    if v < 128 {
      assert [v][1..] == [];
    } else {
      VarintBytesMeaning(v / 128);
      assert VarintBytes(v)[1..] == VarintBytes(v / 128);
      assert VarintBytes(v)[0] % 128 == v % 128;
    }
  }

  lemma {:induction false} VarintBytesShape(v: nat)
    ensures VarintBytes(v)[|VarintBytes(v)| - 1] < 128
    ensures forall k :: 0 <= k < |VarintBytes(v)| - 1 ==> VarintBytes(v)[k] >= 128
  {
    if v >= 128 {
      VarintBytesShape(v / 128);
    }
  }

  lemma {:induction false} VarintBytesWidth(v: nat, k: nat)
    requires k >= 1 && v < Pow2(7 * k)
    ensures |VarintBytes(v)| <= k
  {
    assert Pow2(0) == 1;
    SevenMore(k - 1);
    if v >= 128 {
      VarintBytesWidth(v / 128, k - 1);
    }
  }

  /**
   A number is read exactly when some prefix is a varint, that prefix is the only one, and the number is its
   base-128 digits modulo 2^64.
   */
  lemma VarintMeaning(buf: Bytes)
    ensures Varint(buf).None? <==> forall m: nat :: !IsVarint(buf, m)
    ensures forall m: nat | IsVarint(buf, m) :: Varint(buf) == Some((Base128(buf[..m]) % TWO_64, m))
  {
    VarintLengthMeaning(buf, 0);
    if Varint(buf).Some? {
      assert IsVarint(buf, VarintLength(buf, 0));
    }
  }

  /** Decoding inverts encoding for every uint64, whatever bytes follow. */
  lemma VarintRoundTrip(v: UInt64, tail: Bytes)
    ensures Varint(VarintBytes(v) + tail) == Some((v, |VarintBytes(v)|))
  {
    hide Base128, VarintBytes, Pow2, Varint;
    var s := VarintBytes(v);
    VarintBytesMeaning(v);
    VarintBytesShape(v);
    Pow2Values();
    VarintBytesWidth(v, 10);
    assert IsVarint(s + tail, |s|);
    VarintMeaning(s + tail);
    assert (s + tail)[..|s|] == s;
  }
}
