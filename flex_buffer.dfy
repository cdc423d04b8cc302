/**
 * The growable output buffer of src/protocol/flex-buffer.ts: a byte array of
 * power-of-two capacity and a write position `n`.  Writes append at `n`,
 * growing the array to the next power of two first when it is too small.
 */
module FlexBuffers {
  import opened Int32
  import Bit

  /** One byte of a Node Buffer. */
  type byte = x: int | 0 <= x < 256

  /** Capacity of a fresh buffer, `1 << 20`. */
  const INITIAL_SIZE: nat := 0x10_0000

  // ---------------------------------------------------------------------------
  // Byte encodings

  /** The four bytes Node's `writeInt32LE` stores for `v`: two's complement, low byte first. */
  function Int32LE(v: int): (r: seq<byte>)
    requires -TWO_31 <= v < TWO_31
    ensures |r| == 4
    ensures (v < 0) <==> r[3] >= 128
  {
    var u := v % TWO_32;
    [u % 256, u / 0x100 % 256, u / 0x1_0000 % 256, u / 0x100_0000]
  }

  /** The signed 32-bit number four little-endian bytes encode (Node's `readInt32LE`). */
  function ReadInt32LE(b: seq<byte>): (r: int)
    requires |b| == 4
    ensures -TWO_31 <= r < TWO_31
    ensures (r < 0) <==> b[3] >= 128
  {
    var u := b[0] as int + 0x100 * (b[1] as int) + 0x1_0000 * (b[2] as int) + 0x100_0000 * (b[3] as int);
    if u >= TWO_31 then u - TWO_32 else u
  }

  /** Reading back the encoding of an int32 gives the number. */
  lemma Int32LERoundTrip(v: int)
    requires -TWO_31 <= v < TWO_31
    ensures ReadInt32LE(Int32LE(v)) == v
  {
    var u := v % TWO_32;
    assert u == if v < 0 then v + TWO_32 else v by {
      DivModUnique(v, if v < 0 then v + TWO_32 else v, if v < 0 then -1 else 0, TWO_32);
    }
    var b := Int32LE(v);
    var c0, c1, c2, c3 := b[0] as int, b[1] as int, b[2] as int, b[3] as int;
    assert u == c0 + 0x100 * c1 + 0x1_0000 * c2 + 0x100_0000 * c3 by {
      var q1, q2 := u / 0x100, u / 0x1_0000;
      assert q1 == c1 + 0x100 * (q1 / 0x100);
      assert q2 == c2 + 0x100 * (q2 / 0x100);
      DivModUnique(u, c0 + 0x100 * c1, q1 / 0x100, 0x1_0000);
      DivModUnique(u, c0 + 0x100 * c1 + 0x1_0000 * c2, q2 / 0x100, 0x100_0000);
    }
  }

  /** `u` split at `d` into a remainder below `d` and a quotient. */
  lemma DivModUnique(u: int, lo: int, hi: int, d: int)
    requires d > 0 && 0 <= lo < d && u == lo + d * hi
    ensures u / d == hi && u % d == lo
  {
    var q, m := u / d, u % d;
    assert d * q + m == d * hi + lo;
    MulBound(d, q - hi);
    assert d * (q - hi) == d * q - d * hi;
  }

  /** A nonzero multiple of a positive `d` is at least `d` away from zero. */
  lemma {:induction false} MulBound(d: int, k: int)
    requires d > 0
    ensures k >= 1 ==> d * k >= d
    ensures k <= -1 ==> d * k <= -d
    decreases if k < 0 then -k else k
  {
    if k > 1 {
      MulBound(d, k - 1);
      assert d * k == d * (k - 1) + d;
    } else if k < -1 {
      MulBound(d, k + 1);
      assert d * k == d * (k + 1) - d;
    }
  }

  /** Every four bytes are the encoding of the number they read as. */
  lemma ReadInt32LERoundTrip(b: seq<byte>)
    requires |b| == 4
    ensures Int32LE(ReadInt32LE(b)) == b
  {
    var b0, b1, b2, b3 := b[0] as int, b[1] as int, b[2] as int, b[3] as int;
    var u := b0 + 0x100 * b1 + 0x1_0000 * b2 + 0x100_0000 * b3;
    assert ReadInt32LE(b) % TWO_32 == u by {
      DivModUnique(ReadInt32LE(b), u, if u >= TWO_31 then -1 else 0, TWO_32);
    }
    DivModUnique(u, b0, b1 + 0x100 * b2 + 0x1_0000 * b3, 0x100);
    DivModUnique(u, b0 + 0x100 * b1, b2 + 0x100 * b3, 0x1_0000);
    DivModUnique(u, b0 + 0x100 * b1 + 0x1_0000 * b2, b3, 0x100_0000);
    DivModUnique(b1 + 0x100 * b2 + 0x1_0000 * b3, b1, b2 + 0x100 * b3, 0x100);
    DivModUnique(b2 + 0x100 * b3, b2, b3, 0x100);
  }

  // ---------------------------------------------------------------------------
  // writeUint8Array as written

  /**
   * `ArrayBuffer.prototype.slice(begin, end)`: both arguments count from the
   * end when negative and are clamped to the buffer; an end before the begin
   * gives no bytes.
   */
  function ArrayBufferSlice(bytes: seq<byte>, begin: int, end: int): (r: seq<byte>)
    ensures |r| <= |bytes|
    ensures 0 <= begin <= end <= |bytes| ==> r == bytes[begin..end]
    ensures 0 <= end <= begin ==> r == []
  {
    var lo := Clamp(begin, |bytes|);
    var hi := Clamp(end, |bytes|);
    if hi <= lo then [] else bytes[lo..hi]
  }

  /** A relative index of the ArrayBuffer methods, resolved against a length. */
  function Clamp(i: int, len: nat): (r: nat)
    ensures r <= len
    ensures 0 <= i <= len ==> r == i
    ensures i < 0 ==> r <= i + len || r == 0
  {
    if i < 0 then (if i + len < 0 then 0 else i + len)
    else if i > len then len
    else i
  }

  /**
   * The bytes `writeUint8Array(arr, start, len)` copies into the buffer: the
   * whole array when `start` is 0, otherwise the slice of the array's backing
   * store from `start` to the offset `len` (not `start + len`).
   */
  function CopiedBytes(arr: seq<byte>, start: int, len: int): (r: seq<byte>)
    ensures start == 0 ==> r == arr
    ensures 0 < start <= len <= |arr| ==> r == arr[start..len]
  {
    if start != 0 then ArrayBufferSlice(arr, start, len) else arr
  }

  /**
   * With a non-zero start, the code copies fewer than `len` bytes while the
   * write position still advances by `len`.
   */
  lemma CopiedBytesShort(arr: seq<byte>, start: int, len: int)
    requires 0 < start && 0 < len && start + len <= |arr|
    ensures |CopiedBytes(arr, start, len)| < len
  {
    if start <= len {
      assert CopiedBytes(arr, start, len) == arr[start..len];
    }
  }

  /** Copying two bytes from offset 1 of [1, 2, 3, 4] copies only [2]. */
  lemma CopiedBytesExample()
    ensures CopiedBytes([1, 2, 3, 4], 1, 2) == [2]
    ensures CopiedBytes([1, 2, 3, 4], 1, 2) != [1, 2, 3, 4][1..1 + 2]
  {
    assert [1, 2, 3, 4][1..2] == [2 as byte];
  }

  /** When the whole array is written from offset 0, the code copies exactly that range. */
  lemma CopiedBytesWhole(arr: seq<byte>, start: int, len: int)
    requires start == 0 && len == |arr|
    ensures CopiedBytes(arr, start, len) == arr[start..start + len]
  {
    assert arr[0..|arr|] == arr;
  }

  // ---------------------------------------------------------------------------
  // The buffer

  class FlexBuffer {
    /** Backing store; its length is the capacity. */
    var buf: array<byte>
    /** Number of bytes written since the last reset. */
    var n: nat

    /** The written prefix fits the capacity, which is a power of two. */
    ghost predicate Valid()
      reads this
    {
      n <= buf.Length && IsPow2(buf.Length)
    }

    /** `slice()`: the bytes written so far. */
    function Slice(): (r: seq<byte>)
      reads this, buf
      requires n <= buf.Length
      ensures |r| == n
    {
      buf[..n]
    }

    /** A fresh buffer: 2^20 zero bytes of capacity, nothing written. */
    constructor()
      ensures Valid() && n == 0 && buf.Length == INITIAL_SIZE && fresh(buf)
    {
      buf := new byte[INITIAL_SIZE];
      n := 0;
      Pow2Constants();
      Pow2IsPow2(20);
    }

    /** `reset()`: forget the written bytes, keep the capacity. */
    method Reset()
      requires Valid()
      modifies this
      ensures Valid() && n == 0 && buf == old(buf)
      ensures Slice() == []
    {
      n := 0;
    }

    /**
     * `resize(m)`: make room for `m` more bytes.  A buffer that is too small is
     * replaced by one of capacity nextPow2(n + m) holding the same written bytes.
     */
    method Resize(m: nat)
      requires Valid() && n + m <= TWO_31
      modifies this
      ensures Valid() && n == old(n) && n + m <= buf.Length
      ensures Slice() == old(Slice())
      ensures old(n + m <= buf.Length) ==> buf == old(buf)
      ensures old(n + m > buf.Length) ==> fresh(buf) && IsPow2(buf.Length) && buf.Length < 2 * (n + m)
    {
      var need := n + m;
      if need <= buf.Length {
        return;
      }
      var size := Bit.NextPow2(need);
      Bit.NextPow2Least(need);
      MoveTo(size);
    }

    /** Replace the backing store by a zeroed one of `size` bytes that starts with the written bytes. */
    method MoveTo(size: nat)
      requires Valid() && n <= size && IsPow2(size)
      modifies this
      ensures Valid() && n == old(n) && fresh(buf) && buf.Length == size
      ensures Slice() == old(Slice())
    {
      var newBuf := new byte[size];
      forall i | 0 <= i < n {
        newBuf[i] := buf[i];
      }
      buf := newBuf;
    }

    /** `writeInt32LE(v)`: append the four little-endian bytes of `v`. */
    method WriteInt32LE(v: int)
      requires Valid() && n + 4 <= TWO_31
      requires -TWO_31 <= v < TWO_31
      modifies this, buf
      ensures Valid()
      ensures Slice() == old(Slice()) + Int32LE(v)
    {
      Resize(4);
      var b := Int32LE(v);
      buf[n], buf[n + 1], buf[n + 2], buf[n + 3] := b[0], b[1], b[2], b[3];
      n := n + 4;
    }

    /** `writeUInt8(v)`: append one byte. */
    method WriteUInt8(v: int)
      requires Valid() && n + 1 <= TWO_31
      requires 0 <= v < 256
      modifies this, buf
      ensures Valid()
      ensures Slice() == old(Slice()) + [v]
    {
      Resize(1);
      buf[n] := v;
      n := n + 1;
    }

    /** `writeUint8Array(arr, start, len)` as intended: append `arr[start..start + len]`. */
    method WriteUint8Array(arr: seq<byte>, start: nat, len: nat)
      requires Valid() && n + len <= TWO_31
      requires start + len <= |arr|
      modifies this, buf
      ensures Valid()
      ensures Slice() == old(Slice()) + arr[start..start + len]
    {
      Resize(len);
      forall i | 0 <= i < len {
        buf[n + i] := arr[start + i];
      }
      n := n + len;
    }
  }
}
