/**
 * The chunk abstraction the world index stores.  The chunk class itself lives in
 * src/protocol/chunk, which is not part of this model: a chunk here is an origin
 * (immutable), a map from local offsets to voxel values, the `dirty` flag the
 * server clears after syncing, and a `destroyed` mark set by its `destroy` hook.
 */
module Chunks {
  import opened Int32

  /** Values `config.CHUNK_BITS` may take: a chunk edge fits well inside 32 bits. */
  type ChunkBitsRange = b: nat | b < 31

  /** `config.CHUNK_BITS`; its value is configuration and is left symbolic. */
  const CHUNK_BITS: ChunkBitsRange

  /** `config.CHUNK_SIZE`, the chunk edge length 2^CHUNK_BITS. */
  const CHUNK_SIZE: nat := Pow2(CHUNK_BITS)

  /** Integer coordinates; a chunk key `"x,y,z"` is the Coord of the chunk's origin. */
  datatype Coord = Coord(x: int, y: int, z: int)

  /**
   * `(c >> CB) << CB`: JavaScript's `>>` floors the 32-bit value of `c` by 2^CB and
   * `<<` multiplies back, again as a 32-bit value.
   */
  function Align(c: int): (r: int)
    ensures -TWO_31 <= r < TWO_31
  {
    ToInt32(ToInt32(c) / CHUNK_SIZE * CHUNK_SIZE)
  }

  /** The chunk origin covering a coordinate. */
  function OriginOf(p: Coord): Coord {
    Coord(Align(p.x), Align(p.y), Align(p.z))
  }

  /** The offset of a coordinate inside its chunk: `x - cx`, `y - cy`, `z - cz`. */
  function LocalOf(p: Coord): Coord {
    Coord(p.x - Align(p.x), p.y - Align(p.y), p.z - Align(p.z))
  }

  /** Two coordinates with the same origin and the same local offset are equal. */
  lemma OriginLocalInjective(p: Coord, q: Coord)
    requires OriginOf(p) == OriginOf(q) && LocalOf(p) == LocalOf(q)
    ensures p == q
  {
  }

  /** `v | 0` leaves a value already in the signed 32-bit range alone. */
  lemma ToInt32InRange(v: int)
    requires -TWO_31 <= v < TWO_31
    ensures ToInt32(v) == v
  {
    if v < 0 {
      assert v % TWO_32 == v + TWO_32;
    }
  }

  /** 2^(a + b) == 2^a * 2^b. */
  lemma {:induction false} Pow2Add(a: nat, b: nat)
    ensures Pow2(a + b) == Pow2(a) * Pow2(b)
    decreases b
  {
    if b > 0 {
      Pow2Add(a, b - 1);
      var x, y := Pow2(a), Pow2(b - 1);
      assert Pow2(a + b) == 2 * (x * y);
      assert Pow2(b) == 2 * y;
      assert 2 * (x * y) == x * (2 * y);
    }
  }

  lemma MulMonotone(a: int, b: int, d: int)
    requires a <= b && d >= 0
    ensures a * d <= b * d
  {
  }

  /** Flooring to a multiple of d stays above a lower bound that is itself a multiple of d. */
  lemma FloorBounds(c: int, d: int, m: int)
    requires d >= 1 && m >= 0 && -(m * d) <= c
    ensures -(m * d) <= c / d * d <= c < c / d * d + d
  {
    var q, r := c / d, c % d;
    assert c == q * d + r && 0 <= r < d;
    if q < -m {
      MulMonotone(q + 1, -m, d);
    } else {
      MulMonotone(-m, q, d);
    }
  }

  /**
   * For a coordinate in the 32-bit range, the aligned origin is the largest multiple
   * of the chunk edge not above it, so the local offset lies in [0, CHUNK_SIZE).
   */
  lemma AlignInRange(c: int)
    requires -TWO_31 <= c < TWO_31
    ensures Align(c) == c / CHUNK_SIZE * CHUNK_SIZE
    ensures Align(c) <= c < Align(c) + CHUNK_SIZE
  {
    ToInt32InRange(c);
    var m := Pow2(31 - CHUNK_BITS);
    Pow2Add(31 - CHUNK_BITS, CHUNK_BITS);
    Pow2Constants();
    FloorBounds(c, CHUNK_SIZE, m);
    ToInt32InRange(c / CHUNK_SIZE * CHUNK_SIZE);
  }

  lemma DivMulCancel(q: int, d: int)
    requires d >= 1
    ensures q * d / d == q
  {
    var a := q * d;
    assert a == (a / d) * d + a % d;
    if a / d < q {
      MulMonotone(a / d + 1, q, d);
    } else if a / d > q {
      MulMonotone(q + 1, a / d, d);
    }
  }

  /** An aligned origin in range is its own origin. */
  lemma AlignIdempotent(c: int)
    requires -TWO_31 <= c < TWO_31
    ensures Align(Align(c)) == Align(c)
  {
    AlignInRange(c);
    var a := Align(c);
    ToInt32InRange(a);
    DivMulCancel(c / CHUNK_SIZE, CHUNK_SIZE);
    ToInt32InRange(a / CHUNK_SIZE * CHUNK_SIZE);
  }

  class Chunk {
    /** Origin of the chunk, a multiple of CHUNK_SIZE on each axis. */
    const x: int
    const y: int
    const z: int
    /** Voxel values by local offset; an offset never written holds AIR (0). */
    var voxels: map<Coord, int>
    /** Set by every voxel write, cleared once the chunk has been sent. */
    var dirty: bool
    /** Set by the `destroy` hook (which releases client-side resources). */
    var destroyed: bool
    /** Tick of the last sync that saw the chunk modified (src/server/api.js). */
    var lastModifiedTick: int

    /** A new chunk at an origin, all AIR. */
    constructor(x: int, y: int, z: int)
      ensures this.x == x && this.y == y && this.z == z
      ensures voxels == map[] && !dirty && !destroyed && lastModifiedTick == 0
    {
      this.x, this.y, this.z := x, y, z;
      voxels := map[];
      dirty, destroyed := false, false;
      lastModifiedTick := 0;
    }

    /** `getKey()`: the chunk's origin. */
    function Key(): Coord {
      Coord(x, y, z)
    }

    /** `getVox(lx, ly, lz)` on a local offset. */
    function GetVox(local: Coord): int
      reads this
    {
      if local in voxels then voxels[local] else 0
    }

    /** `setVox(lx, ly, lz, v)`: store a value and mark the chunk dirty. */
    method SetVox(local: Coord, v: int)
      modifies this
      ensures voxels == old(voxels)[local := v] && dirty
      ensures destroyed == old(destroyed) && lastModifiedTick == old(lastModifiedTick)
    {
      voxels := voxels[local := v];
      dirty := true;
    }

    /** `destroy()`. */
    method Destroy()
      modifies this
      ensures destroyed
      ensures voxels == old(voxels) && dirty == old(dirty) && lastModifiedTick == old(lastModifiedTick)
    {
      destroyed := true;
    }
  }
}
