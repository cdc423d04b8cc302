/**
 * `nextPow2` (src/math/bit.ts): `(v | 0) - 1`, then the top set bit is smeared into
 * every lower bit by the five lines `v |= v >> s`, then `+ 1`.
 */
module Bit {
  import opened Int32

  /**
   * nextPow2(v).  `(v | 0) - 1` is a JavaScript number that the first `>>` and `|=`
   * convert back to 32 bits; those bits are the bits of v - 1 (`ToInt32SameBits`), so
   * the word the smear starts from is `ToWord(v - 1)`.  The final `+ 1` is done on a
   * number and is not wrapped.
   */
  function NextPow2(v: int): int {
    Signed(SmearDown(ToWord(v - 1))) + 1
  }

  /**
   * For 1 <= v <= 2^31 the result is the least power of two not below v.
   * (nextPow2(2^31) is 2^31 because the final `+ 1` is not wrapped to 32 bits.)
   */
  lemma NextPow2Least(v: int)
    requires 1 <= v <= TWO_31
    ensures IsPow2(NextPow2(v))
    ensures v <= NextPow2(v) < 2 * v
  {
    if v == 1 {
      SmearZero(v - 1);
      Pow2IsPow2(0);
    } else {
      NextPow2Above(v, Log2(v - 1));
      Pow2IsPow2(Log2(v - 1) + 1);
    }
  }

  /** Conversely, the least power of two not below v is the only one in [v, 2v), so it is nextPow2(v). */
  lemma NextPow2Unique(v: int, p: int)
    requires 1 <= v <= TWO_31
    requires IsPow2(p) && v <= p < 2 * v
    ensures p == NextPow2(v)
  {
    NextPow2Least(v);
    Pow2InHalfOpen(p, NextPow2(v), v);
  }

  /** For 2 <= v <= 2^31 the result is 2^(h+1), where h is the top bit of v - 1. */
  lemma NextPow2Above(v: int, h: nat)
    requires 2 <= v <= TWO_31 && h == Log2(v - 1)
    ensures NextPow2(v) == Pow2(h + 1)
  {
    TopBitBelow31(v, h);
    SmearPositive(v - 1, h);
  }

  /** Powers of two up to 2^31 are fixed points. */
  lemma NextPow2Fixed(k: nat, v: int)
    requires k <= 31 && v == Pow2(k)
    ensures NextPow2(v) == v
  {
    assert v <= TWO_31 by {
      Pow2Monotone(k, 31);
      Pow2Constants();
    }
    Pow2IsPow2(k);
    NextPow2Unique(v, v);
  }

  /**
   * 0, and every v in (2^31, 2^32], map to 0: v - 1 has its sign bit set, the smear
   * fills the word with ones, and -1 + 1 == 0.
   */
  lemma NextPow2Wraps(v: int)
    requires v == 0 || TWO_31 < v <= TWO_32
    ensures NextPow2(v) == 0
  {
    if v == 0 {
      SmearNegative(v - 1);
    } else {
      ToWordPeriodic(v - 1 - TWO_32, v - 1);
      SmearNegative(v - 1 - TWO_32);
    }
  }
}
