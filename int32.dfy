/**
 * JavaScript's 32-bit integer operations, as used by src/math/bit.ts.
 *
 * JavaScript bitwise operators work on 32-bit two's-complement words.  A word is
 * modelled as 32 booleans (bit 0 first); `ToInt32` is JavaScript's `v | 0` on an
 * integer, `ToWord` the bit pattern of an integer, `Signed` reads a word back as a
 * two's-complement value, `Or` is `|` and `Sar` is the sign-propagating `>>`.
 */
module Int32 {
  /** 2^k. */
  function Pow2(k: nat): (r: nat)
    ensures r >= 1
  {
    if k == 0 then 1 else 2 * Pow2(k - 1)
  }

  const TWO_31: int := 0x8000_0000
  const TWO_32: int := 0x1_0000_0000

  /** A 32-bit word, least significant bit first. */
  type Word = w: seq<bool> | |w| == 32 witness seq(32, i => false)

  /** The low `k` bits of the two's-complement representation of `x`, least significant first. */
  function BitsOf(x: int, k: nat): (w: seq<bool>)
    ensures |w| == k
    decreases k
  {
    if k == 0 then [] else [x % 2 == 1] + BitsOf(x / 2, k - 1)
  }

  /** The 32-bit pattern JavaScript's `x | 0` keeps of the integer `x`. */
  function ToWord(x: int): Word {
    BitsOf(x, 32)
  }

  /** The bits of `w` read as an unsigned binary number. */
  function Val(w: seq<bool>): nat {
    if w == [] then 0 else (if w[0] then 1 else 0) + 2 * Val(w[1..])
  }

  /** A word read as a two's-complement 32-bit integer (the value of `x | 0`). */
  function Signed(w: Word): int {
    Val(w) - (if w[31] then TWO_32 else 0)
  }

  /** Bitwise `a | b`. */
  function Or(a: Word, b: Word): Word {
    seq(32, i requires 0 <= i < 32 => a[i] || b[i])
  }

  /** Arithmetic shift `a >> s`: bits move down, the sign bit is copied into the vacated top. */
  function Sar(a: Word, s: nat): Word
    requires s < 32
  {
    seq(32, i requires 0 <= i < 32 => if i + s < 32 then a[i + s] else a[31])
  }

  /** One line `v |= v >> s` of the smear. */
  function Smear(w: Word, s: nat): Word
    requires s < 32
  {
    Or(w, Sar(w, s))
  }

  /** JavaScript's `v | 0` on an integer: v reduced into the signed 32-bit range. */
  function ToInt32(v: int): (r: int)
    ensures -TWO_31 <= r < TWO_31
  {
    (v + TWO_31) % TWO_32 - TWO_31
  }

  /** `v | 0` differs from v by a multiple of 2^32. */
  lemma ToInt32Congruent(v: int)
    ensures (v - ToInt32(v)) % TWO_32 == 0
  {
    var m := (v + TWO_31) % TWO_32;
    assert v + TWO_31 == (v + TWO_31) / TWO_32 * TWO_32 + m;
  }

  /** The five lines `v |= v >> 1` ... `v |= v >> 16`. */
  function SmearDown(w: Word): Word {
    SmearBy(w, [1, 2, 4, 8, 16])
  }

  /** `v |= v >> s` for each `s` of `shifts` in turn. */
  function SmearBy(w: Word, shifts: seq<nat>): Word
    requires forall i :: 0 <= i < |shifts| ==> shifts[i] < 32
    decreases |shifts|
  {
    if shifts == [] then w else SmearBy(Smear(w, shifts[0]), shifts[1..])
  }

  /** `r` is a power of two. */
  predicate IsPow2(r: int)
    decreases if r < 0 then 0 else r
  {
    r == 1 || (r >= 2 && r % 2 == 0 && IsPow2(r / 2))
  }

  /** floor(log2(x)): the position of the top set bit of a positive number. */
  function Log2(x: nat): (r: nat)
    requires x >= 1
    ensures Pow2(r) <= x < Pow2(r + 1)
  {
    if x == 1 then 0 else 1 + Log2(x / 2)
  }

  // ---------------------------------------------------------------------------
  // Powers of two

  lemma {:induction false} Pow2Monotone(a: nat, b: nat)
    requires a <= b
    ensures Pow2(a) <= Pow2(b)
    decreases b - a
  {
    if a < b {
      Pow2Monotone(a, b - 1);
    }
  }

  lemma {:induction false} Pow2IsPow2(k: nat)
    ensures IsPow2(Pow2(k))
  {
    if k > 0 {
      Pow2IsPow2(k - 1);
      assert Pow2(k) / 2 == Pow2(k - 1);
    }
  }

  /** Every power of two is 2^Log2 of itself. */
  lemma {:induction false} IsPow2Log2(p: int)
    requires IsPow2(p)
    ensures p >= 1 && p == Pow2(Log2(p))
    decreases p
  {
    if p != 1 {
      IsPow2Log2(p / 2);
    }
  }

  /** Two powers of two in the same range [v, 2v) are equal. */
  lemma Pow2InHalfOpen(p: int, q: int, v: int)
    requires IsPow2(p) && IsPow2(q)
    requires v <= p < 2 * v && v <= q < 2 * v
    ensures p == q
  {
    IsPow2Log2(p);
    IsPow2Log2(q);
    var a, b := Log2(p), Log2(q);
    if a < b {
      assert Pow2(a + 1) == 2 * p;
      Pow2Monotone(a + 1, b);
    } else if b < a {
      assert Pow2(b + 1) == 2 * q;
      Pow2Monotone(b + 1, a);
    }
  }

  lemma Pow2Constants()
    ensures Pow2(20) == 0x10_0000
    ensures Pow2(31) == TWO_31 && Pow2(32) == TWO_32
  {
    assert Pow2(4) == 16;
    assert Pow2(8) == 256;
    assert Pow2(12) == 4096;
    assert Pow2(16) == 65536;
    assert Pow2(20) == 0x10_0000;
    assert Pow2(24) == 0x100_0000;
    assert Pow2(28) == 0x1000_0000;
  }

  // ---------------------------------------------------------------------------
  // Words and their values

  /** A number in [0, 2^k) keeps its value in k bits. */
  lemma {:induction false} ValBitsOfNat(x: int, k: nat)
    requires 0 <= x < Pow2(k)
    ensures Val(BitsOf(x, k)) == x
  {
    if k > 0 {
      ValBitsOfNat(x / 2, k - 1);
      assert BitsOf(x, k)[1..] == BitsOf(x / 2, k - 1);
    }
  }

  /** Adding 2^k does not change the low k bits. */
  lemma {:induction false} BitsOfPeriodic(x: int, k: nat)
    ensures BitsOf(x + Pow2(k), k) == BitsOf(x, k)
    decreases k
  {
    if k > 0 {
      BitsOfPeriodic(x / 2, k - 1);
      assert (x + Pow2(k)) / 2 == x / 2 + Pow2(k - 1);
    }
  }

  /** A number below 2^j has no bit set at j or above. */
  lemma {:induction false} HighBitsClear(x: int, k: nat, j: nat)
    requires 0 <= x < Pow2(j) && j < k
    ensures forall i :: j <= i < k ==> !BitsOf(x, k)[i]
  {
    if j == 0 {
      ZeroBits(k);
    } else {
      HighBitsClear(x / 2, k - 1, j - 1);
      assert BitsOf(x, k)[1..] == BitsOf(x / 2, k - 1);
    }
  }

  lemma {:induction false} ZeroBits(k: nat)
    ensures BitsOf(0, k) == seq(k, i => false)
  {
    if k > 0 {
      ZeroBits(k - 1);
    }
  }

  /** A number in [2^h, 2^(h+1)) has bit h set and every higher bit clear. */
  lemma {:induction false} TopBitOf(x: int, h: nat, k: nat)
    requires Pow2(h) <= x < Pow2(h + 1) && h < k
    ensures BitsOf(x, k)[h]
    ensures forall i :: h < i < k ==> !BitsOf(x, k)[i]
  {
    if h == 0 {
      ZeroBits(k - 1);
      assert BitsOf(x, k) == [true] + BitsOf(0, k - 1);
    } else {
      TopBitOf(x / 2, h - 1, k - 1);
      assert BitsOf(x, k)[1..] == BitsOf(x / 2, k - 1);
    }
  }

  /** The `n`-bit pattern whose bits below k are set and the rest clear. */
  function Ones(k: nat, n: nat): (w: seq<bool>)
    ensures |w| == n
  {
    seq(n, i requires 0 <= i < n => i < k)
  }

  /** The word whose bits below k are set and the rest clear. */
  function LowOnes(k: nat): Word {
    Ones(k, 32)
  }

  lemma {:induction false} ValOnes(k: nat, n: nat)
    ensures Val(Ones(k, n)) == Pow2(if n < k then n else k) - 1
  {
    if n > 0 {
      if k == 0 {
        ZeroBits(n);
        ValBitsOfNat(0, n);
        assert Ones(0, n) == BitsOf(0, n);
      } else {
        ValOnes(k - 1, n - 1);
        assert Ones(k, n)[1..] == Ones(k - 1, n - 1);
      }
    }
  }

  /** The smear keeps a block of low ones as it is. */
  lemma SmearLowOnes(k: nat, s: nat)
    requires k <= 31 && s < 32
    ensures Smear(LowOnes(k), s) == LowOnes(k)
  {
  }

  /**
   * `w`'s top set bit is `h` and the `t` bits from `h` downwards are set: the state
   * between the smear steps.
   */
  predicate Smeared(w: Word, h: nat, t: nat)
    requires h < 32
  {
    w[h]
    && (forall i :: h < i < 32 ==> !w[i])
    && (forall i :: 0 <= i <= h && h - i < t ==> w[i])
  }

  /** One smear step by s doubles a run of at least s ones below the top bit. */
  lemma SmearStep(w: Word, h: nat, t: nat, s: nat)
    requires h < 32 && 1 <= s <= t && s < 32
    requires Smeared(w, h, t)
    ensures Smeared(Smear(w, s), h, t + s)
  {
    var r := Smear(w, s);
    forall i | 0 <= i <= h && h - i < t + s
      ensures r[i]
    {
      if h - i >= t {
        assert w[i + s];
      }
    }
  }

  /** After the five smear steps every bit at or below the top bit is set. */
  lemma SmearAll(w: Word, h: nat)
    requires h < 32 && Smeared(w, h, 1)
    ensures SmearDown(w) == LowOnes(h + 1)
  {
    SmearStep(w, h, 1, 1);
    var w1 := Smear(w, 1);
    SmearStep(w1, h, 2, 2);
    var w2 := Smear(w1, 2);
    SmearStep(w2, h, 4, 4);
    var w3 := Smear(w2, 4);
    SmearStep(w3, h, 8, 8);
    var w4 := Smear(w3, 8);
    SmearStep(w4, h, 16, 16);
    assert SmearDown(w) == Smear(w4, 16) by {
      var shifts := [1, 2, 4, 8, 16];
      assert SmearBy(w, shifts) == SmearBy(w1, shifts[1..]);
      assert SmearBy(w1, shifts[1..]) == SmearBy(w2, shifts[2..]);
      assert SmearBy(w2, shifts[2..]) == SmearBy(w3, shifts[3..]);
      assert SmearBy(w3, shifts[3..]) == SmearBy(w4, shifts[4..]);
      assert SmearBy(w4, shifts[4..]) == SmearBy(Smear(w4, 16), shifts[5..]);
    }
  }

  /** The five smear steps applied to ToWord(x) for x in [2^h, 2^(h+1)) or, with h = 31, in [-2^31, 0). */
  lemma SmearOf(x: int, h: nat)
    requires h < 32
    requires (Pow2(h) <= x < Pow2(h + 1)) || (h == 31 && -TWO_31 <= x < 0)
    ensures SmearDown(ToWord(x)) == LowOnes(h + 1)
  {
    if x < 0 {
      Pow2Constants();
      BitsOfPeriodic(x, 32);
      TopBitOf(x + TWO_32, 31, 32);
    } else {
      TopBitOf(x, h, 32);
    }
    SmearAll(ToWord(x), h);
  }

  /** The value of the word with bits [0, k) set. */
  lemma SignedLowOnes(k: nat)
    requires 1 <= k <= 32
    ensures Signed(LowOnes(k)) == (if k == 32 then -1 else Pow2(k) - 1)
  {
    Pow2Constants();
    ValOnes(k, 32);
  }

  // ---------------------------------------------------------------------------
  // Facts used by nextPow2

  /** Equal numbers have equal words (stated once so that callers need not unfold ToWord). */
  lemma ToWordCongruent(a: int, b: int)
    requires a == b
    ensures ToWord(a) == ToWord(b)
  {
  }

  /** Adding any multiple of 2^k does not change the low k bits. */
  lemma {:induction false} BitsOfShift(x: int, y: int, q: int, k: nat)
    requires y == x + q * Pow2(k)
    ensures BitsOf(y, k) == BitsOf(x, k)
    decreases k
  {
    if k > 0 {
      var p := Pow2(k - 1);
      assert y == x + 2 * (q * p);
      BitsOfShift(x / 2, y / 2, q, k - 1);
    }
  }

  /** Numbers 2^32 apart, any number of times, have equal words. */
  lemma ToWordShift(x: int, y: int, q: int)
    requires y == x + q * TWO_32
    ensures ToWord(y) == ToWord(x)
  {
    Pow2Constants();
    BitsOfShift(x, y, q, 32);
  }

  /** `v | 0` and v have the same 32 bits, and so have `(v | 0) - 1` and v - 1. */
  lemma ToInt32SameBits(v: int)
    ensures ToWord(ToInt32(v) - 1) == ToWord(v - 1)
  {
    ToInt32Congruent(v);
    var q := (v - ToInt32(v)) / TWO_32;
    ToWordShift(ToInt32(v) - 1, v - 1, q);
  }

  /** Words repeat with period 2^32. */
  lemma ToWordPeriodic(x: int, y: int)
    requires y == x + TWO_32
    ensures ToWord(y) == ToWord(x)
  {
    Pow2Constants();
    BitsOfPeriodic(x, 32);
    ToWordCongruent(y, x + Pow2(32));
  }

  /** Zero has no bit set and smears to 0. */
  lemma SmearZero(x: int)
    requires x == 0
    ensures Signed(SmearDown(ToWord(x))) + 1 == 1
  {
    var z := LowOnes(0);
    assert ToWord(x) == z by {
      HighBitsClear(x, 32, 0);
    }
    forall s: nat | s < 32
      ensures Smear(z, s) == z
    {
      SmearLowOnes(0, s);
    }
    SmearByFixed(z, [1, 2, 4, 8, 16]);
    assert Val(z) == 0 by {
      ValOnes(0, 32);
    }
  }

  /** Smear steps that each leave `w` alone leave it alone together. */
  lemma {:induction false} SmearByFixed(w: Word, shifts: seq<nat>)
    requires forall i :: 0 <= i < |shifts| ==> shifts[i] < 32 && Smear(w, shifts[i]) == w
    ensures SmearBy(w, shifts) == w
    decreases |shifts|
  {
    if shifts != [] {
      SmearByFixed(w, shifts[1..]);
    }
  }

  /** A number with top bit h < 31 smears to 2^(h+1) - 1. */
  lemma SmearPositive(x: int, h: nat)
    requires h < 31 && Pow2(h) <= x < Pow2(h + 1)
    ensures Signed(SmearDown(ToWord(x))) + 1 == Pow2(h + 1)
  {
    SmearOf(x, h);
    SignedLowOnes(h + 1);
    Pow2Monotone(h + 1, 31);
    Pow2Constants();
  }

  /** A negative 32-bit number smears to all ones, that is -1. */
  lemma SmearNegative(x: int)
    requires -TWO_31 <= x < 0
    ensures Signed(SmearDown(ToWord(x))) + 1 == 0
  {
    SmearOf(x, 31);
    SignedLowOnes(32);
  }

  /** For v <= 2^31 the top bit of v - 1 is below bit 31. */
  lemma TopBitBelow31(v: int, h: nat)
    requires 2 <= v <= TWO_31 && h == Log2(v - 1)
    ensures h < 31
  {
    if h >= 31 {
      Pow2Monotone(31, h);
      Pow2Constants();
    }
  }

  /** The top bit of 2^k - 1 is k - 1. */
  lemma Log2BelowPow2(k: nat, x: nat)
    requires k >= 1 && x == Pow2(k) - 1
    ensures Log2(x) == k - 1
  {
    var h := Log2(x);
    if h >= k {
      Pow2Monotone(k, h);
    }
  }
}
