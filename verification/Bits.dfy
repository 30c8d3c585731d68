/** Powers of two, shifts and bitwise OR on unbounded naturals. */
module Bits {
  function Pow2(n: nat): (p: nat)
    ensures p >= 1
  {
    if n == 0 then 1 else 2 * Pow2(n - 1)
  }

  /** Bitwise OR, one binary digit at a time. */
  function BitOr(a: nat, b: nat): nat {
    if a == 0 && b == 0 then 0
    else 2 * BitOr(a / 2, b / 2) + (if a % 2 == 1 || b % 2 == 1 then 1 else 0)
  }

  lemma {:induction false} Pow2Add(m: nat, n: nat)
    ensures Pow2(m + n) == Pow2(m) * Pow2(n)
  {
    if m == 0 {
    } else {
      Pow2Add(m - 1, n);
      assert Pow2(m + n) == 2 * Pow2(m - 1 + n);
      assert 2 * (Pow2(m - 1) * Pow2(n)) == (2 * Pow2(m - 1)) * Pow2(n);
    }
  }

  lemma Pow2Small()
    ensures Pow2(1) == 2 && Pow2(6) == 64 && Pow2(7) == 128
  {
    assert Pow2(2) == 4 && Pow2(4) == 16;
  }

  lemma Pow2Values()
    ensures Pow2(7) == 128 && Pow2(63) == 0x8000_0000_0000_0000
    ensures Pow2(64) == 0x1_0000_0000_0000_0000 && Pow2(70) == 64 * 0x1_0000_0000_0000_0000
  {
    hide Pow2;
    Pow2Small();
    Pow2Add(7, 7);
    Pow2Add(14, 14);
    Pow2Add(28, 28);
    Pow2Add(56, 7);
    Pow2Add(63, 1);
    Pow2Add(64, 6);
  }

  lemma {:induction false} BitOrZero(a: nat)
    ensures BitOr(0, a) == a
  {
    if a == 0 {
    } else {
      BitOrZero(a / 2);
    }
  }

  /** OR of numbers whose binary digits do not overlap is their sum. */
  lemma {:induction false} BitOrDisjoint(low: nat, high: nat, k: nat)
    requires low < Pow2(k)
    ensures BitOr(low, high * Pow2(k)) == low + high * Pow2(k)
  {
    if k == 0 {
      BitOrZero(high);
    } else {
      var half := high * Pow2(k - 1);
      assert high * Pow2(k) == 2 * half by { assert high * (2 * Pow2(k - 1)) == 2 * (high * Pow2(k - 1)); }
      BitOrDisjoint(low / 2, high, k - 1);
      if low == 0 && half == 0 {
      } else {
        assert BitOr(low, 2 * half) == 2 * BitOr(low / 2, half) + low % 2;
      }
    }
  }

  lemma {:induction false} ModOf(n: int, d: int, w: int, r: int)
    requires 0 <= r < w && n == d * w + r
    ensures n % w == r
  {
    var e := n / w - d;
    assert n == (n / w) * w + n % w;
    assert (n / w) * w == d * w + e * w;
    assert e >= 1 ==> e * w >= w;
    assert e <= -1 ==> e * w <= -w;
  }

  lemma Scale(x: nat, p: nat, q: nat)
    requires p > 0 && q > 0
    ensures q * p > 0 && (x * p) % (q * p) == (x % q) * p
    ensures (x % q) * p <= q * p - p
  {
    var d, m := x / q, x % q;
    assert x == d * q + m;
    assert x * p == (d * q) * p + m * p;
    assert (d * q) * p == d * (q * p);
    assert m * p <= (q - 1) * p;
    assert q * p > 0;
    ModOf(x * p, d, q * p, m * p);
  }

  /** Shifting left by s in a w-bit register keeps the w - s low digits of x. */
  lemma ShiftDropsHighDigits(x: nat, s: nat, w: nat)
    requires s <= w
    ensures (x * Pow2(s)) % Pow2(w) == (x % Pow2(w - s)) * Pow2(s)
    ensures (x % Pow2(w - s)) * Pow2(s) <= Pow2(w) - Pow2(s)
  {
    Pow2Add(w - s, s);
    Scale(x, Pow2(s), Pow2(w - s));
  }
}
