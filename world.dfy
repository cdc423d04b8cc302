/**
 * The voxel world index of src/protocol/world.ts: a list of chunks and a table
 * from chunk origin to chunk over the same chunks.  The string key
 * `x + ',' + y + ',' + z` is modelled by the origin `Coord` itself.
 */
module Worlds {
  import opened Wrappers
  import opened Int32
  import opened Chunks
  import Vox

  // ---------------------------------------------------------------------------
  // Specification functions on chunk lists

  /** No two chunks of the list share an origin. */
  ghost predicate KeysDistinct(cs: seq<Chunk>) {
    forall i, j :: 0 <= i < j < |cs| ==> cs[i].Key() != cs[j].Key()
  }

  /**
   * The representation invariant: the list has distinct origins, every chunk of the
   * list is in the table under its origin, and every table entry is a listed chunk
   * stored under its own origin.
   */
  ghost predicate Agree(cs: seq<Chunk>, table: map<Coord, Chunk>) {
    && KeysDistinct(cs)
    && (forall i :: 0 <= i < |cs| ==> cs[i].Key() in table && table[cs[i].Key()] == cs[i])
    && (forall k :: k in table ==> table[k].Key() == k && table[k] in cs)
  }

  /** The chunks among the first n of `cs` that the predicate does not select, in order. */
  function KeptPrefix(cs: seq<Chunk>, n: nat, pred: Chunk -> bool): (r: seq<Chunk>)
    requires n <= |cs|
    ensures |r| <= n
  {
    if n == 0 then []
    else KeptPrefix(cs, n - 1, pred) + (if pred(cs[n - 1]) then [] else [cs[n - 1]])
  }

  /** The chunks of `cs` the predicate does not select, in their original order. */
  function Kept(cs: seq<Chunk>, pred: Chunk -> bool): seq<Chunk> {
    KeptPrefix(cs, |cs|, pred)
  }

  /** How many of the first n chunks the predicate selects. */
  function CountPrefix(cs: seq<Chunk>, n: nat, pred: Chunk -> bool): nat
    requires n <= |cs|
  {
    if n == 0 then 0
    else CountPrefix(cs, n - 1, pred) + (if pred(cs[n - 1]) then 1 else 0)
  }

  /** The origins of the chunks among the first n that the predicate selects. */
  ghost function RemovedKeys(cs: seq<Chunk>, n: nat, pred: Chunk -> bool): set<Coord>
    requires n <= |cs|
  {
    set j | 0 <= j < n && pred(cs[j]) :: cs[j].Key()
  }

  /** Selects the chunk at one origin. */
  function AtKey(k: Coord): Chunk -> bool {
    (c: Chunk) => c.Key() == k
  }

  /** The kept prefix holds exactly the unselected chunks of the prefix. */
  lemma {:induction false} KeptMembers(cs: seq<Chunk>, n: nat, pred: Chunk -> bool)
    requires n <= |cs|
    ensures forall i :: 0 <= i < |KeptPrefix(cs, n, pred)| ==>
      KeptPrefix(cs, n, pred)[i] in cs[..n] && !pred(KeptPrefix(cs, n, pred)[i])
    ensures forall j :: 0 <= j < n && !pred(cs[j]) ==> cs[j] in KeptPrefix(cs, n, pred)
  {
    if n > 0 {
      KeptMembers(cs, n - 1, pred);
      assert cs[..n] == cs[..n - 1] + [cs[n - 1]];
    }
  }

  /** The chunks that stay plus the chunks that go are all the chunks. */
  lemma {:induction false} KeptCount(cs: seq<Chunk>, n: nat, pred: Chunk -> bool)
    requires n <= |cs|
    ensures |KeptPrefix(cs, n, pred)| + CountPrefix(cs, n, pred) == n
  {
    if n > 0 {
      KeptCount(cs, n - 1, pred);
    }
  }

  /** Dropping chunks keeps the origins distinct. */
  lemma {:induction false} KeptDistinct(cs: seq<Chunk>, n: nat, pred: Chunk -> bool)
    requires KeysDistinct(cs) && n <= |cs|
    ensures KeysDistinct(KeptPrefix(cs, n, pred))
  {
    if n > 0 {
      KeptDistinct(cs, n - 1, pred);
      KeptMembers(cs, n - 1, pred);
      var ri := KeptPrefix(cs, n - 1, pred);
      var last := cs[n - 1];
      if !pred(last) {
        forall i | 0 <= i < |ri|
          ensures ri[i].Key() != last.Key()
        {
          var j :| 0 <= j < n - 1 && cs[..n - 1][j] == ri[i];
          assert cs[j] == ri[i];
        }
      }
    }
  }

  /** With list and table in agreement, exactly the chunks at origins of the table are counted at their origin. */
  lemma CountAtKey(cs: seq<Chunk>, table: map<Coord, Chunk>, k: Coord)
    requires Agree(cs, table)
    ensures CountPrefix(cs, |cs|, AtKey(k)) == (if k in table then 1 else 0)
  {
    CountAtKeyPrefix(cs, k, |cs|);
    if k in table {
      var i :| 0 <= i < |cs| && cs[i] == table[k];
    }
  }

  /** Count at one origin in a prefix of a list with distinct origins. */
  lemma {:induction false} CountAtKeyPrefix(cs: seq<Chunk>, k: Coord, n: nat)
    requires KeysDistinct(cs) && n <= |cs|
    ensures CountPrefix(cs, n, AtKey(k)) == (if exists i :: 0 <= i < n && cs[i].Key() == k then 1 else 0)
  {
    if n > 0 {
      CountAtKeyPrefix(cs, k, n - 1);
    }
  }

  /** Appending a chunk at a new origin keeps list and table in agreement. */
  lemma AgreeAppend(cs: seq<Chunk>, table: map<Coord, Chunk>, c: Chunk)
    requires Agree(cs, table) && c.Key() !in table
    ensures Agree(cs + [c], table[c.Key() := c])
  {
    var cs' := cs + [c];
    forall i, j | 0 <= i < j < |cs'|
      ensures cs'[i].Key() != cs'[j].Key()
    {
      if j == |cs| {
        assert cs[i].Key() in table;
      }
    }
  }

  /** Replacing the chunk at index i by a chunk at the same origin keeps the agreement. */
  lemma AgreeReplace(cs: seq<Chunk>, table: map<Coord, Chunk>, i: nat, c: Chunk)
    requires Agree(cs, table) && i < |cs| && cs[i].Key() == c.Key()
    ensures Agree(cs[i := c], table[c.Key() := c])
  {
    var cs' := cs[i := c];
    var t' := table[c.Key() := c];
    forall k | k in t'
      ensures t'[k].Key() == k && t'[k] in cs'
    {
      if k != c.Key() {
        var j :| 0 <= j < |cs| && cs[j] == table[k];
        assert j != i;
        assert cs'[j] == t'[k];
      } else {
        assert cs'[i] == c;
      }
    }
  }

  /** Removing the selected chunks from the list and their origins from the table keeps the agreement. */
  lemma AgreeKept(cs: seq<Chunk>, table: map<Coord, Chunk>, pred: Chunk -> bool)
    requires Agree(cs, table)
    ensures Agree(Kept(cs, pred), table - RemovedKeys(cs, |cs|, pred))
  {
    var r := Kept(cs, pred);
    var t := table - RemovedKeys(cs, |cs|, pred);
    KeptDistinct(cs, |cs|, pred);
    KeptMembers(cs, |cs|, pred);
    assert cs[..|cs|] == cs;
    forall i | 0 <= i < |r|
      ensures r[i].Key() in t && t[r[i].Key()] == r[i]
    {
      assert r[i] in cs;
    }
    forall k | k in t
      ensures t[k].Key() == k && t[k] in r
    {
      var j :| 0 <= j < |cs| && cs[j] == table[k];
    }
  }

  /** Removing the chunk at one origin removes exactly that list entry. */
  lemma KeptAtKey(cs: seq<Chunk>, i: nat, k: Coord)
    requires KeysDistinct(cs) && i < |cs| && cs[i].Key() == k
    ensures Kept(cs, AtKey(k)) == cs[..i] + cs[i + 1..]
  {
    KeptAtKeyPrefix(cs, |cs|, i, k);
  }

  /** KeptAtKey on the prefix of length n. */
  lemma {:induction false} KeptAtKeyPrefix(cs: seq<Chunk>, n: nat, i: nat, k: Coord)
    requires KeysDistinct(cs) && i < n <= |cs| && cs[i].Key() == k
    ensures KeptPrefix(cs, n, AtKey(k)) == cs[..i] + cs[i + 1..n]
    decreases n
  {
    if i == n - 1 {
      KeptNone(cs, i, k);
    } else {
      KeptAtKeyPrefix(cs, n - 1, i, k);
      assert cs[i + 1..n - 1] + [cs[n - 1]] == cs[i + 1..n];
    }
  }

  /** A prefix with no chunk at an origin loses nothing when that origin is removed. */
  lemma {:induction false} KeptNone(cs: seq<Chunk>, n: nat, k: Coord)
    requires n <= |cs| && forall j :: 0 <= j < n ==> cs[j].Key() != k
    ensures KeptPrefix(cs, n, AtKey(k)) == cs[..n]
  {
    if n > 0 {
      KeptNone(cs, n - 1, k);
      assert cs[..n] == cs[..n - 1] + [cs[n - 1]];
    }
  }

  /** The origins removed for one origin of the table are just that origin. */
  lemma RemovedAtKey(cs: seq<Chunk>, table: map<Coord, Chunk>, k: Coord)
    requires Agree(cs, table) && k in table
    ensures RemovedKeys(cs, |cs|, AtKey(k)) == {k}
  {
    var j :| 0 <= j < |cs| && cs[j] == table[k];
    assert AtKey(k)(cs[j]);
  }

  /** Extending the scanned prefix by one chunk adds its origin exactly when it is selected. */
  lemma RemovedStep(cs: seq<Chunk>, i: nat, pred: Chunk -> bool)
    requires i < |cs|
    ensures RemovedKeys(cs, i + 1, pred)
      == RemovedKeys(cs, i, pred) + (if pred(cs[i]) then {cs[i].Key()} else {})
  {
  }

  lemma MapMinusStep(t: map<Coord, Chunk>, a: set<Coord>, k: Coord)
    ensures (t - a) - {k} == t - (a + {k})
  {
  }

  /** The state of `Sweep` after `i` chunks: the kept ones packed at the front, the rest untouched. */
  ghost predicate Swept(cs: seq<Chunk>, pred: Chunk -> bool, list: seq<Chunk>, i: nat, offset: nat) {
    |list| == |cs| && offset <= i <= |cs|
    && list[..i - offset] == KeptPrefix(cs, i, pred)
    && forall j :: i <= j < |cs| ==> list[j] == cs[j]
  }

  lemma SweepKeep(cs: seq<Chunk>, pred: Chunk -> bool, list: seq<Chunk>, i: nat, offset: nat)
    requires Swept(cs, pred, list, i, offset) && i < |cs| && !pred(cs[i])
    ensures Swept(cs, pred, list[i - offset := cs[i]], i + 1, offset)
    ensures offset == 0 ==> Swept(cs, pred, list, i + 1, offset)
  {
    var l := list[i - offset := cs[i]];
    assert l[..i - offset] == list[..i - offset];
    assert l[..i + 1 - offset] == l[..i - offset] + [cs[i]];
    if offset == 0 {
      assert list[..i + 1] == list[..i] + [cs[i]];
    }
  }

  lemma SweepDrop(cs: seq<Chunk>, pred: Chunk -> bool, list: seq<Chunk>, i: nat, offset: nat)
    requires Swept(cs, pred, list, i, offset) && i < |cs| && pred(cs[i])
    ensures Swept(cs, pred, list, i + 1, offset + 1)
  {
  }

  lemma SweepDone(cs: seq<Chunk>, pred: Chunk -> bool, list: seq<Chunk>, offset: nat)
    requires Swept(cs, pred, list, |cs|, offset)
    ensures list[..|list| - offset] == Kept(cs, pred)
  {
  }

  /**
   * The single pass of `removeChunks`: each selected chunk is destroyed and its key
   * deleted from the table; each kept chunk slides down over the gap left so far;
   * finally the list is truncated by the number removed.
   */
  method Sweep(cs: seq<Chunk>, table0: map<Coord, Chunk>, pred: Chunk -> bool)
    returns (kept: seq<Chunk>, table: map<Coord, Chunk>)
    modifies cs
    ensures kept == Kept(cs, pred)
    ensures table == table0 - RemovedKeys(cs, |cs|, pred)
    ensures forall c :: c in cs ==>
      c.destroyed == (old(c.destroyed) || pred(c)) && c.voxels == old(c.voxels) && c.dirty == old(c.dirty)
  {
    var list := cs;
    table := table0;
    var offset := 0;
    var i := 0;
    ghost var removed: set<Coord> := {};
    while i < |list|
      invariant Swept(cs, pred, list, i, offset)
      invariant removed == RemovedKeys(cs, i, pred) && table == table0 - removed
      invariant forall c :: c in cs ==> c.voxels == old(c.voxels) && c.dirty == old(c.dirty)
      invariant forall c :: c in cs ==> c.destroyed == (old(c.destroyed) || (c in cs[..i] && pred(c)))
    {
      var chunk := list[i];
      RemovedStep(cs, i, pred);
      assert cs[..i + 1] == cs[..i] + [chunk];
      if pred(chunk) {
        SweepDrop(cs, pred, list, i, offset);
        offset := offset + 1;
        var key := chunk.Key();
        MapMinusStep(table0, removed, key);
        table := table - {key};
        removed := removed + {key};
        chunk.Destroy();
      } else {
        SweepKeep(cs, pred, list, i, offset);
        if offset > 0 {
          list := list[i - offset := chunk];
        }
      }
      i := i + 1;
    }
    SweepDone(cs, pred, list, offset);
    kept := list[..|list| - offset];
  }

  /** The local offset of a coordinate in the 32-bit range lies inside its chunk. */
  lemma LocalInChunk(p: Coord)
    requires -TWO_31 <= p.x < TWO_31 && -TWO_31 <= p.y < TWO_31 && -TWO_31 <= p.z < TWO_31
    ensures 0 <= LocalOf(p).x < CHUNK_SIZE
    ensures 0 <= LocalOf(p).y < CHUNK_SIZE
    ensures 0 <= LocalOf(p).z < CHUNK_SIZE
  {
    AlignInRange(p.x);
    AlignInRange(p.y);
    AlignInRange(p.z);
  }

  /**
   * What `getVox` reads at `q` in a world whose chunks, by origin, held the
   * given voxel maps: a snapshot of a world taken before it changes.
   */
  function VoxAt(voxels: map<Coord, map<Coord, int>>, q: Coord): (r: int)
    ensures OriginOf(q) !in voxels ==> r == Vox.OFF_WORLD
  {
    var o := OriginOf(q);
    if o !in voxels then Vox.OFF_WORLD
    else if LocalOf(q) in voxels[o] then voxels[o][LocalOf(q)] else 0
  }

  /** The voxel maps of the chunks of a table, by origin. */
  ghost function VoxelsOf(table: map<Coord, Chunk>): (r: map<Coord, map<Coord, int>>)
    reads table.Values
    ensures r.Keys == table.Keys
  {
    map o | o in table :: table[o].voxels
  }

  /** The flags of the chunks of a table, by origin: dirty, destroyed and last-modified tick. */
  ghost function FlagsOf(table: map<Coord, Chunk>): (r: map<Coord, (bool, bool, int)>)
    reads table.Values
    ensures r.Keys == table.Keys
  {
    map o | o in table :: (table[o].dirty, table[o].destroyed, table[o].lastModifiedTick)
  }

  /**
   * The effect of `setVox(p, v)` between two snapshots of a world (table,
   * voxels and flags, by origin): the table only grows, `p` reads `v`, other
   * points read as before except the rest of a new chunk, the covering chunk is
   * dirty, and no other flag changes.
   */
  ghost predicate SetEffect(t1: map<Coord, Chunk>, vx1: map<Coord, map<Coord, int>>, fl1: map<Coord, (bool, bool, int)>,
                            t2: map<Coord, Chunk>, vx2: map<Coord, map<Coord, int>>, fl2: map<Coord, (bool, bool, int)>,
                            p: Coord, v: int)
  {
    && (forall o :: o in t1 ==> o in t2 && t2[o] == t1[o])
    && VoxAt(vx2, p) == v
    && (forall q :: OriginOf(q) != OriginOf(p) ==> VoxAt(vx2, q) == VoxAt(vx1, q))
    && (forall q :: q != p && OriginOf(q) in vx1 ==> VoxAt(vx2, q) == VoxAt(vx1, q))
    && OriginOf(p) in fl2 && fl2[OriginOf(p)].0
    && (forall o :: o in fl1 ==> o in fl2 && fl2[o].1 == fl1[o].1 && fl2[o].2 == fl1[o].2
                                 && (o != OriginOf(p) ==> fl2[o].0 == fl1[o].0))
  }

  /** A world reads exactly as the snapshot of its own table. */
  lemma ReadsAsSnapshot(w: World, q: Coord)
    ensures w.GetVox(q) == VoxAt(VoxelsOf(w.chunkTable), q)
  {
  }

  // ---------------------------------------------------------------------------
  // The world

  class World {
    /** Every loaded chunk, in insertion order. */
    var chunks: seq<Chunk>
    /** The same chunks by origin. */
    var chunkTable: map<Coord, Chunk>

    ghost predicate Valid()
      reads this
    {
      Agree(chunks, chunkTable)
    }

    /** An empty world. */
    constructor()
      ensures Valid() && chunks == [] && chunkTable == map[]
    {
      chunks := [];
      chunkTable := map[];
    }

    /** `addChunk(chunk)`: fails when the origin is taken, otherwise appends and indexes the chunk. */
    method AddChunk(chunk: Chunk) returns (r: Outcome)
      requires Valid()
      modifies this
      ensures Valid()
      ensures r.Fail? <==> old(chunk.Key() in chunkTable)
      ensures r.Fail? ==> chunks == old(chunks) && chunkTable == old(chunkTable)
      ensures r.Pass? ==> chunks == old(chunks) + [chunk] && chunkTable == old(chunkTable)[chunk.Key() := chunk]
    {
      var key := chunk.Key();
      if key in chunkTable {
        return Fail("there is already a chunk at that origin");
      }
      AgreeAppend(chunks, chunkTable, chunk);
      chunks := chunks + [chunk];
      chunkTable := chunkTable[key := chunk];
      return Pass;
    }

    /**
     * `replaceChunk(chunk)`: a chunk already at the origin is destroyed and its list
     * slot takes the new chunk; otherwise the chunk is appended.  Either way the
     * table maps the origin to the new chunk.
     */
    method ReplaceChunk(chunk: Chunk)
      requires Valid()
      modifies this, chunks
      ensures Valid()
      ensures chunkTable == old(chunkTable)[chunk.Key() := chunk]
      ensures old(chunk.Key() !in chunkTable) ==> chunks == old(chunks) + [chunk]
      ensures old(chunk.Key() in chunkTable) ==>
        |chunks| == |old(chunks)| && old(chunkTable[chunk.Key()]).destroyed
        && forall i :: 0 <= i < |chunks| ==>
             chunks[i] == if old(chunks[i]).Key() == chunk.Key() then chunk else old(chunks[i])
      ensures forall c :: c in old(chunks) && c.Key() != chunk.Key() ==> unchanged(c)
    {
      var key := chunk.Key();
      if key in chunkTable {
        var found := FindChunkIndex(key);
        var index := found.value;
        chunks[index].Destroy();
        AgreeReplace(chunks, chunkTable, index, chunk);
        chunks := chunks[index := chunk];
      } else {
        AgreeAppend(chunks, chunkTable, chunk);
        chunks := chunks + [chunk];
      }
      chunkTable := chunkTable[key := chunk];
    }

    /**
     * `removeChunk({x, y, z})`: fails when no chunk is at the origin; otherwise that
     * chunk is destroyed and leaves both the list and the table, and the other
     * chunks keep their order.
     */
    method RemoveChunk(key: Coord) returns (r: Outcome)
      requires Valid()
      modifies this, chunks
      ensures Valid()
      ensures r.Fail? <==> old(key !in chunkTable)
      ensures r.Fail? ==> chunks == old(chunks) && chunkTable == old(chunkTable)
      ensures r.Pass? ==>
        && chunks == Kept(old(chunks), AtKey(key))
        && |chunks| == |old(chunks)| - 1
        && chunkTable == old(chunkTable) - {key}
        && old(chunkTable[key]).destroyed
      ensures forall c :: c in old(chunks) && c.Key() != key ==> unchanged(c)
    {
      if key !in chunkTable {
        return Fail("there is no chunk at that origin");
      }
      var found := FindChunkIndex(key);
      var index := found.value;
      chunks[index].Destroy();
      KeptAtKey(chunks, index, key);
      KeptCount(chunks, |chunks|, AtKey(key));
      CountAtKey(chunks, chunkTable, key);
      AgreeKept(chunks, chunkTable, AtKey(key));
      RemovedAtKey(chunks, chunkTable, key);
      chunks := chunks[..index] + chunks[index + 1..];
      chunkTable := chunkTable - {key};
      return Pass;
    }

    /** `findChunkIndex`: the first list position holding a chunk at the origin, or the error. */
    method FindChunkIndex(key: Coord) returns (r: Result<nat>)
      ensures r.Ok? ==> r.value < |chunks| && chunks[r.value].Key() == key
      ensures r.Ok? ==> forall j :: 0 <= j < r.value ==> chunks[j].Key() != key
      ensures r.Err? <==> forall j :: 0 <= j < |chunks| ==> chunks[j].Key() != key
    {
      var i := 0;
      while i < |chunks|
        invariant 0 <= i <= |chunks|
        invariant forall j :: 0 <= j < i ==> chunks[j].Key() != key
      {
        var c := chunks[i];
        if c.x == key.x && c.y == key.y && c.z == key.z {
          return Ok(i);
        }
        i := i + 1;
      }
      return Err("chunk not found");
    }

    /**
     * `removeChunks(predicate)`: destroys the selected chunks, drops them from the
     * table and keeps the others in their order (the pass itself is `Sweep`).
     */
    method RemoveChunks(pred: Chunk -> bool)
      requires Valid()
      modifies this, chunks
      ensures Valid()
      ensures chunks == Kept(old(chunks), pred)
      ensures |chunks| == |old(chunks)| - CountPrefix(old(chunks), |old(chunks)|, pred)
      ensures chunkTable == old(chunkTable) - RemovedKeys(old(chunks), |old(chunks)|, pred)
      ensures forall c :: c in old(chunks) ==>
        c.destroyed == (old(c.destroyed) || pred(c)) && c.voxels == old(c.voxels) && c.dirty == old(c.dirty)
    {
      var kept, table := Sweep(chunks, chunkTable, pred);
      AgreeKept(chunks, chunkTable, pred);
      KeptCount(chunks, |chunks|, pred);
      chunks, chunkTable := kept, table;
    }

    /** `getChunk(x, y, z)`: the chunk AT an origin, if any. */
    function GetChunk(key: Coord): (r: Option<Chunk>)
      reads this
      ensures Valid() ==> (r.Some? <==> exists i :: 0 <= i < |chunks| && chunks[i].Key() == key)
      ensures Valid() && r.Some? ==> r.value in chunks && r.value.Key() == key
    {
      if key in chunkTable then Some(chunkTable[key]) else None
    }

    /**
     * `getVox(x, y, z)`: the voxel of the covering chunk, or OFF_WORLD (-1) when
     * there is none.  The contract is the lookup itself; `ReadsAsSnapshot` ties it
     * to the heap-free `VoxAt(VoxelsOf(chunkTable), p)`, on which the proofs about
     * batches of writes are carried out.
     */
    function GetVox(p: Coord): (r: int)
      reads this, chunkTable.Values
      ensures OriginOf(p) !in chunkTable ==> r == Vox.OFF_WORLD
      ensures OriginOf(p) in chunkTable ==> r == chunkTable[OriginOf(p)].GetVox(LocalOf(p))
    {
      var chunk := GetChunk(OriginOf(p));
      if chunk.None? then Vox.OFF_WORLD else chunk.value.GetVox(LocalOf(p))
    }

    /**
     * `setVox(x, y, z, v)`: writes into the covering chunk, first adding a new AIR
     * chunk at the origin when there is none (so the inner `addChunk` never fails).
     * Afterwards `getVox` at the same point reads `v`; points of other chunks read
     * as before, and the rest of a new chunk reads as AIR.
     */
    method SetVox(p: Coord, v: int)
      requires Valid()
      modifies this, chunkTable.Values
      ensures Valid()
      ensures GetVox(p) == v
      ensures forall q :: OriginOf(q) != OriginOf(p) ==> GetVox(q) == old(GetVox(q))
      ensures forall q :: OriginOf(q) == OriginOf(p) && q != p ==>
        GetVox(q) == if old(OriginOf(p) in chunkTable) then old(GetVox(q)) else 0
      ensures old(OriginOf(p) in chunkTable) ==> chunks == old(chunks) && chunkTable == old(chunkTable)
      ensures old(OriginOf(p) !in chunkTable) ==>
        |chunks| == |old(chunks)| + 1 && chunks[..|old(chunks)|] == old(chunks)
        && chunks[|old(chunks)|].Key() == OriginOf(p) && fresh(chunks[|old(chunks)|])
        && chunkTable == old(chunkTable)[OriginOf(p) := chunks[|old(chunks)|]]
      ensures OriginOf(p) in chunkTable && chunkTable[OriginOf(p)].dirty
      ensures forall c :: c in old(chunkTable.Values) ==>
        c.destroyed == old(c.destroyed) && c.lastModifiedTick == old(c.lastModifiedTick)
        && (c.Key() != OriginOf(p) ==> c.dirty == old(c.dirty))
    {
      var origin := OriginOf(p);
      var found := GetChunk(origin);
      var chunk: Chunk;
      if found.None? {
        chunk := new Chunk(origin.x, origin.y, origin.z);
        var added := AddChunk(chunk);
        assert added.Pass?;
      } else {
        chunk := found.value;
      }
      chunk.SetVox(LocalOf(p), v);
      forall q | OriginOf(q) == OriginOf(p) && q != p
        ensures LocalOf(q) != LocalOf(p)
      {
        if LocalOf(q) == LocalOf(p) {
          OriginLocalInjective(q, p);
        }
      }
    }
  }
}
