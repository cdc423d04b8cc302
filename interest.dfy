/**
 * The interest radius of the server (`isInRange`, identical in
 * src/server/bazooka-game.ts and src/server/api.js): two points are in range when
 * the squared distance between their chunk-grid cells is below the square of
 * `CHUNK_SEND_RADIUS`.
 */
module Interest {
  import opened Int32
  import opened Chunks
  import opened Objects

  /** `config.SERVER.CHUNK_SEND_RADIUS`; its value is configuration and is left symbolic. */
  const CHUNK_SEND_RADIUS: int

  /**
   * `Math.trunc`: drop the fraction of a number toward zero, the first step of
   * JavaScript's ToInt32 conversion (the wrap is `Int32.ToInt32`).
   */
  function Trunc(r: real): (n: int)
    ensures r >= 0.0 ==> n as real <= r < n as real + 1.0
    ensures r < 0.0 ==> n as real - 1.0 < r <= n as real
  {
    if r >= 0.0 then r.Floor else -((-r).Floor)
  }

  /** `c >> CB`: the 32-bit value of `c`, floored by the chunk size. */
  function GridOf(c: real): int {
    ToInt32(Trunc(c)) / CHUNK_SIZE
  }

  /** The squared distance between the chunk-grid cells of two points. */
  function GridDistance2(a: Vec, b: Vec): (d: int)
    ensures d >= 0
  {
    var dx := GridOf(b.x) - GridOf(a.x);
    var dy := GridOf(b.y) - GridOf(a.y);
    var dz := GridOf(b.z) - GridOf(a.z);
    dx * dx + dy * dy + dz * dz
  }

  /** `isInRange(a, b)`. */
  predicate InRange(a: Vec, b: Vec) {
    GridDistance2(a, b) < CHUNK_SEND_RADIUS * CHUNK_SEND_RADIUS
  }

  /** A chunk seen as the point `{x, y, z}` of its origin. */
  function ChunkPos(c: Chunk): Vec {
    Vec(c.x as real, c.y as real, c.z as real)
  }

  lemma SquareOfNegation(d: int)
    ensures (-d) * (-d) == d * d
  {
  }

  /** Being in range does not depend on which point is asked about which. */
  lemma InRangeSymmetric(a: Vec, b: Vec)
    ensures InRange(a, b) <==> InRange(b, a)
    ensures GridDistance2(a, b) == GridDistance2(b, a)
  {
    SquareOfNegation(GridOf(b.x) - GridOf(a.x));
    SquareOfNegation(GridOf(b.y) - GridOf(a.y));
    SquareOfNegation(GridOf(b.z) - GridOf(a.z));
  }

  /** Only the chunk-grid cell of a point matters: points of one cell see the same things. */
  lemma InRangeByCell(a: Vec, a': Vec, b: Vec)
    requires GridOf(a.x) == GridOf(a'.x) && GridOf(a.y) == GridOf(a'.y) && GridOf(a.z) == GridOf(a'.z)
    ensures InRange(a, b) <==> InRange(a', b)
  {
  }

  /** Points of the same grid cell on every axis: e.g. the player and the chunk of its own grid cell. */
  lemma InRangeSameCell(a: Vec, b: Vec)
    requires GridOf(a.x) == GridOf(b.x) && GridOf(a.y) == GridOf(b.y) && GridOf(a.z) == GridOf(b.z)
    ensures InRange(a, b) <==> CHUNK_SEND_RADIUS != 0
  {
    assert GridDistance2(a, b) == 0;
  }
}
