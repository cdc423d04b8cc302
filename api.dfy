/**
 * The older server loop of src/server/api.js: a module-level state holding the
 * connections, the world and the client configuration, with the operations
 * that greet a connection, drop it when it closes, tell each connection about
 * the players and the chunks around it, and apply the `set` commands of an
 * update.  The connection record of that file carries its player and its
 * chunk cursors itself; it is modelled by the same `PlayerConn` as the game's.
 */
module Api {
  import opened Wrappers
  import opened Objects
  import opened Chunks
  import opened Worlds
  import opened Connections
  import opened Interest
  import BazookaGame

  // ------------------------------------------------------------ connections

  /** `Array.prototype.indexOf`: the first index holding `x`, or -1. */
  function IndexOf<T(==)>(s: seq<T>, x: T): (r: int)
    ensures -1 <= r < |s|
    ensures r == -1 <==> x !in s
    ensures r >= 0 ==> s[r] == x && x !in s[..r]
  {
    if |s| == 0 then -1
    else if s[0] == x then 0
    else
      var r0 := IndexOf(s[1..], x);
      assert s == [s[0]] + s[1..];
      if r0 == -1 then -1
      else
        assert s[1..][..r0] == s[1..r0 + 1];
        r0 + 1
  }

  /**
   * `Array.prototype.splice(index, 1)` on a list: a negative index counts from
   * the end (clamped to the start), an index past the end removes nothing.
   */
  function SpliceOne<T>(s: seq<T>, index: int): seq<T> {
    var start := if index < 0 then (if |s| + index < 0 then 0 else |s| + index) else index;
    if start < |s| then s[..start] + s[start + 1..] else s
  }

  /** A connection that is in the list is removed at its first position, and only there. */
  lemma RemoveFound<T>(s: seq<T>, x: T)
    requires x in s
    ensures var ix := IndexOf(s, x);
      0 <= ix < |s| && SpliceOne(s, ix) == s[..ix] + s[ix + 1..] && |SpliceOne(s, ix)| == |s| - 1
  {
  }

  /**
   * `indexOf` answers -1 for a connection that is not in the list, and
   * `splice(-1, 1)` then removes the last connection, which is another one.
   */
  lemma {:induction false} RemoveMissing<T>(s: seq<T>, x: T)
    requires x !in s && |s| > 0
    ensures SpliceOne(s, IndexOf(s, x)) == s[..|s| - 1]
    ensures x !in SpliceOne(s, IndexOf(s, x))
  {
    assert IndexOf(s, x) == -1;
    assert s[|s| - 1 + 1..] == [];
  }

  /** Removing a listed connection leaves the others separate and no longer lists its socket. */
  lemma RemoveSeparate(pcs: seq<PlayerConn>, pc: PlayerConn)
    requires Separate(pcs) && pc in pcs
    ensures Separate(SpliceOne(pcs, IndexOf(pcs, pc)))
    ensures pc.conn !in ConnsOf(SpliceOne(pcs, IndexOf(pcs, pc)))
  {
    var ix := IndexOf(pcs, pc);
    RemoveFound(pcs, pc);
    SeparateRemove(pcs, ix);
  }

  // ---------------------------------------------------------------- objects

  /** The view of player `b` sent to others: keyed by its name, with its motion and looks. */
  function View(b: GameObj): PlayerView
    reads b
  {
    PlayerView("player-" + b.name, b.location, b.velocity, b.name, b.direction, b.situation)
  }

  /**
   * The views `updateObjects` sends to the connection of player `i`: one for
   * each other named player in range, in connection order, and nothing else.
   */
  function ViewsFor(players: seq<GameObj>, i: nat): (r: seq<PlayerView>)
    requires i < |players|
    reads players
    ensures var v := BazookaGame.VisibleOthers(players, i, |players|);
      |r| == |v| && forall k :: 0 <= k < |v| ==> r[k] == View(players[v[k]])
  {
    var v := BazookaGame.VisibleOthers(players, i, |players|);
    seq(|v|, k requires 0 <= k < |v| reads players => View(players[v[k]]))
  }

  /**
   * A connection is told about exactly the other named players in range, each
   * under the key `player-` followed by its name, and never about its own player.
   */
  lemma ViewsExactly(players: seq<GameObj>, i: nat, j: nat)
    requires i < |players| && j < |players|
    ensures View(players[j]) in ViewsFor(players, i) <== j != i && players[j].name != "" && InRange(players[i].location, players[j].location)
    ensures forall w :: w in ViewsFor(players, i) ==>
      exists k :: (0 <= k < |players| && k != i && players[k].name != "" && w == View(players[k])
        && w.key == "player-" + players[k].name && InRange(players[i].location, players[k].location))
  {
    var v := BazookaGame.VisibleOthers(players, i, |players|);
    var r := ViewsFor(players, i);
    if j != i && players[j].name != "" && InRange(players[i].location, players[j].location) {
      assert BazookaGame.Sees(players, i, j);
      var k :| 0 <= k < |v| && v[k] == j;
      assert r[k] == View(players[j]);
    }
    forall w | w in r
      ensures exists k :: (0 <= k < |players| && k != i && players[k].name != "" && w == View(players[k])
        && w.key == "player-" + players[k].name && InRange(players[i].location, players[k].location))
    {
      var m :| 0 <= m < |r| && r[m] == w;
      assert BazookaGame.Sees(players, i, v[m]);
    }
  }

  /**
   * The inner loop of `updateObjects` for the connection at `i`: every other
   * connection whose player is named and in range contributes its view.
   */
  method ViewsToSend(pcs: seq<PlayerConn>, i: nat) returns (views: seq<PlayerView>)
    requires i < |pcs|
    ensures views == ViewsFor(Players(pcs), i)
  {
    ghost var players := Players(pcs);
    var a := pcs[i].player;
    views := [];
    for j := 0 to |pcs|
      invariant var v := BazookaGame.VisibleOthers(players, i, j);
        |views| == |v| && forall k :: 0 <= k < |v| ==> views[k] == View(players[v[k]])
    {
      if j == i {
        continue;
      }
      var b := pcs[j].player;
      if b.name == "" {
        continue;
      }
      if !InRange(a.location, b.location) {
        continue;
      }
      assert BazookaGame.VisibleOthers(players, i, j + 1) == BazookaGame.VisibleOthers(players, i, j) + [j];
      views := views + [PlayerView("player-" + b.name, b.location, b.velocity, b.name, b.direction, b.situation)];
    }
  }

  /**
   * The lists the outer loop of `updateObjects` builds, one per connection.
   * Sending changes no player, so building every list before the first send
   * yields the same lists as building each just before its own send.
   */
  method ViewLists(pcs: seq<PlayerConn>) returns (lists: seq<seq<PlayerView>>)
    ensures |lists| == |pcs| && forall k :: 0 <= k < |pcs| ==> lists[k] == ViewsFor(Players(pcs), k)
  {
    lists := [];
    for i := 0 to |pcs|
      invariant |lists| == i && forall k :: 0 <= k < i ==> lists[k] == ViewsFor(Players(pcs), k)
    {
      var views := ViewsToSend(pcs, i);
      lists := lists + [views];
    }
  }

  /** The sends of the outer loop of `updateObjects`: each connection is sent its list. */
  method SendViewLists(pcs: seq<PlayerConn>, lists: seq<seq<PlayerView>>)
    requires Separate(pcs) && |lists| == |pcs|
    modifies ConnsOf(pcs)`outbox
    ensures forall k :: 0 <= k < |pcs| ==>
      var c := pcs[k].conn; c.outbox == old(c.outbox) + PostList(c.closed, lists[k], Views(lists[k]))
  {
    for j := 0 to |pcs|
      invariant forall k :: 0 <= k < j ==>
        var c := pcs[k].conn; c.outbox == old(c.outbox) + PostList(c.closed, lists[k], Views(lists[k]))
      invariant forall k :: j <= k < |pcs| ==> pcs[k].conn.outbox == old(pcs[k].conn.outbox)
    {
      SendViews(pcs[j].conn, lists[j]);
    }
  }

  /** `sendObjects(conn, objects)`: one message with the list, none for an empty list. */
  method SendViews(c: Conn, views: seq<PlayerView>)
    modifies c`outbox
    ensures c.outbox == old(c.outbox) + PostList(c.closed, views, Views(views))
  {
    if |views| == 0 {
      return;
    }
    c.Send(Views(views));
  }

  // ----------------------------------------------------------------- chunks

  /** `chunk.lastModified`: no code ever assigns it, so it always reads `undefined`. */
  const LAST_MODIFIED: Option<int> := None

  /** `!n` for a number that may be `undefined`. */
  predicate Falsy(n: Option<int>) {
    n.None? || n.value == 0
  }

  /** `a >= b` in JavaScript where either side may be `undefined`: false unless both are numbers. */
  predicate AtLeast(a: Option<int>, b: Option<int>) {
    a.Some? && b.Some? && a.value >= b.value
  }

  /** `conn.chunksSent[key]`, which is `undefined` for a chunk never sent. */
  function Cursor(sent: map<Coord, int>, k: Coord): Option<int> {
    if k in sent then Some(sent[k]) else None
  }

  /** Whether a chunk is within sending range of a player at `loc`. */
  function InRangeOf(loc: Vec): Chunk -> bool {
    (c: Chunk) => InRange(loc, ChunkPos(c))
  }

  /**
   * The "up to date" test of `updateChunks` never skips a chunk: the cursor is
   * compared with `lastModified`, which is always `undefined`.  So every call
   * sends every chunk in range again, and `Falsy(LAST_MODIFIED)` marks every
   * chunk as modified at the current tick.
   */
  lemma NeverUpToDate(sent: map<Coord, int>, k: Coord)
    ensures !AtLeast(Cursor(sent, k), LAST_MODIFIED) && Falsy(LAST_MODIFIED)
  {
  }

  /**
   * A chunk goes to a player at `loc` exactly when it is in range, whatever
   * the player's cursor says about it.
   */
  lemma ChunkResentExactly(cs: seq<Chunk>, loc: Vec, k: nat)
    requires k < |cs|
    ensures cs[k] in BazookaGame.Selected(cs, |cs|, InRangeOf(loc)) <==> InRange(loc, ChunkPos(cs[k]))
  {
  }

  /**
   * The inner loop of `updateChunks` for one chunk: each connection whose
   * player is in range queues the chunk and stamps its cursor with `tick`.
   */
  method OfferInRange(pcs: seq<PlayerConn>, chunk: Chunk, tick: int, cts0: seq<seq<Chunk>>)
    returns (cts: seq<seq<Chunk>>)
    requires Separate(pcs) && |cts0| == |pcs|
    modifies pcs`chunksSent
    ensures |cts| == |pcs|
    ensures forall j :: 0 <= j < |pcs| ==>
      var pc := pcs[j];
      var want := InRange(pc.player.location, ChunkPos(chunk));
      cts[j] == cts0[j] + (if want then [chunk] else [])
      && pc.chunksSent == if want then old(pc.chunksSent)[chunk.Key() := tick] else old(pc.chunksSent)
  {
    cts := cts0;
    var key := chunk.Key();
    for j := 0 to |pcs|
      invariant |cts| == |pcs|
      invariant forall k :: 0 <= k < j ==>
        var pc := pcs[k];
        var want := InRange(pc.player.location, ChunkPos(chunk));
        cts[k] == cts0[k] + (if want then [chunk] else [])
        && pc.chunksSent == if want then old(pc.chunksSent)[key := tick] else old(pc.chunksSent)
      invariant forall k :: j <= k < |pcs| ==> cts[k] == cts0[k] && pcs[k].chunksSent == old(pcs[k].chunksSent)
    {
      var pc := pcs[j];
      var loc := pc.player.location;
      if !InRange(loc, ChunkPos(chunk)) {
        continue;
      }
      if AtLeast(Cursor(pc.chunksSent, key), LAST_MODIFIED) {
        continue;
      }
      cts := cts[j := cts[j] + [chunk]];
      pc.chunksSent := pc.chunksSent[key := tick];
    }
  }

  /** The first `i` chunks are clean and marked as modified at `tick`. */
  ghost predicate MarkedUpTo(chunks: seq<Chunk>, i: nat, tick: int)
    reads set c | c in chunks
  {
    forall c :: 0 <= c < i && c < |chunks| ==> !chunks[c].dirty && chunks[c].lastModifiedTick == tick
  }

  /**
   * The state of the first loop of `updateChunks` after the first `i` chunks:
   * each connection holds the chunks in range among them, and its cursor map
   * is its map at the start stamped with exactly those chunks.
   */
  ghost predicate Queued(chunks: seq<Chunk>, i: nat, pcs: seq<PlayerConn>, tick: int, cts: seq<seq<Chunk>>,
                         sent0: seq<map<Coord, int>>, locs0: seq<Vec>)
    requires i <= |chunks|
    reads pcs
  {
    |cts| == |pcs| && |sent0| == |pcs| && |locs0| == |pcs|
    && forall j :: 0 <= j < |pcs| ==>
      cts[j] == BazookaGame.Selected(chunks, i, InRangeOf(locs0[j]))
      && pcs[j].chunksSent == BazookaGame.Stamped(sent0[j], cts[j], tick)
  }

  /** The head of the first loop of `updateChunks`: the chunk is marked as modified at `tick`. */
  method MarkModified(chunks: seq<Chunk>, i: nat, tick: int)
    requires KeysDistinct(chunks) && i < |chunks| && MarkedUpTo(chunks, i, tick)
    modifies {chunks[i]}`dirty, {chunks[i]}`lastModifiedTick
    ensures MarkedUpTo(chunks, i + 1, tick)
  {
    var chunk := chunks[i];
    if chunk.dirty || Falsy(LAST_MODIFIED) {
      chunk.dirty := false;
      chunk.lastModifiedTick := tick;
    }
    assert forall c :: 0 <= c < |chunks| && c != i ==> chunks[c] != chunk;
  }

  /** The rest of the body of the first loop of `updateChunks`: chunk `i` is offered to every connection. */
  method QueueOne(chunks: seq<Chunk>, i: nat, pcs: seq<PlayerConn>, tick: int, cts0: seq<seq<Chunk>>,
                  ghost sent0: seq<map<Coord, int>>, ghost locs0: seq<Vec>)
    returns (cts: seq<seq<Chunk>>)
    requires Separate(pcs) && i < |chunks|
    requires Located(pcs, locs0) && Queued(chunks, i, pcs, tick, cts0, sent0, locs0)
    modifies pcs`chunksSent
    ensures Queued(chunks, i + 1, pcs, tick, cts, sent0, locs0)
  {
    label Offer:
    cts := OfferInRange(pcs, chunks[i], tick, cts0);
    forall j | 0 <= j < |pcs|
      ensures cts[j] == BazookaGame.Selected(chunks, i + 1, InRangeOf(locs0[j]))
        && pcs[j].chunksSent == BazookaGame.Stamped(sent0[j], cts[j], tick)
    {
      BazookaGame.CollectStep(chunks, i, InRangeOf(locs0[j]), sent0[j], cts0[j], old@Offer(pcs[j].chunksSent),
                              cts[j], pcs[j].chunksSent, tick);
    }
  }

  /** The body of the first loop of `updateChunks` for chunk `i`. */
  method PassOne(chunks: seq<Chunk>, i: nat, pcs: seq<PlayerConn>, tick: int, cts0: seq<seq<Chunk>>,
                 ghost sent0: seq<map<Coord, int>>, ghost locs0: seq<Vec>)
    returns (cts: seq<seq<Chunk>>)
    requires KeysDistinct(chunks) && Separate(pcs) && i < |chunks| && MarkedUpTo(chunks, i, tick)
    requires Located(pcs, locs0) && Queued(chunks, i, pcs, tick, cts0, sent0, locs0)
    modifies {chunks[i]}`dirty, {chunks[i]}`lastModifiedTick, pcs`chunksSent
    ensures MarkedUpTo(chunks, i + 1, tick)
    ensures Queued(chunks, i + 1, pcs, tick, cts, sent0, locs0)
  {
    MarkModified(chunks, i, tick);
    cts := QueueOne(chunks, i, pcs, tick, cts0, sent0, locs0);
  }

  /** The first loop of `updateChunks`, over the whole chunk list. */
  method QueueFrom(chunks: seq<Chunk>, pcs: seq<PlayerConn>, tick: int, cts0: seq<seq<Chunk>>,
                   ghost sent0: seq<map<Coord, int>>, ghost locs0: seq<Vec>)
    returns (cts: seq<seq<Chunk>>)
    requires KeysDistinct(chunks) && Separate(pcs)
    requires Located(pcs, locs0) && Queued(chunks, 0, pcs, tick, cts0, sent0, locs0)
    modifies chunks`dirty, chunks`lastModifiedTick, pcs`chunksSent
    ensures MarkedUpTo(chunks, |chunks|, tick)
    ensures Queued(chunks, |chunks|, pcs, tick, cts, sent0, locs0)
  {
    cts := cts0;
    for i := 0 to |chunks|
      invariant MarkedUpTo(chunks, i, tick) && Located(pcs, locs0)
      invariant Queued(chunks, i, pcs, tick, cts, sent0, locs0)
    {
      cts := PassOne(chunks, i, pcs, tick, cts, sent0, locs0);
    }
  }

  /** The players' locations are those of the snapshot. */
  ghost predicate Located(pcs: seq<PlayerConn>, locs0: seq<Vec>)
    reads pcs, Players(pcs)
  {
    |locs0| == |pcs| && forall j :: 0 <= j < |pcs| ==> pcs[j].player.location == locs0[j]
  }

  /**
   * The first loop of `updateChunks`: every chunk ends clean and marked as
   * modified at `tick`; each connection queues every chunk in range of its
   * player, in world order, and its cursors for them become `tick`.
   */
  method QueueChunks(chunks: seq<Chunk>, pcs: seq<PlayerConn>, tick: int) returns (cts: seq<seq<Chunk>>)
    requires KeysDistinct(chunks) && Separate(pcs)
    modifies chunks`dirty, chunks`lastModifiedTick, pcs`chunksSent
    ensures |cts| == |pcs|
    ensures forall i :: 0 <= i < |chunks| ==> !chunks[i].dirty && chunks[i].lastModifiedTick == tick
    ensures forall j :: 0 <= j < |pcs| ==>
      cts[j] == BazookaGame.Selected(chunks, |chunks|, InRangeOf(old(pcs[j].player.location)))
      && pcs[j].chunksSent == BazookaGame.Stamped(old(pcs[j].chunksSent), cts[j], tick)
  {
    ghost var sent0 := seq(|pcs|, j requires 0 <= j < |pcs| reads pcs => pcs[j].chunksSent);
    ghost var players := Players(pcs);
    ghost var locs0 := seq(|players|, j requires 0 <= j < |players| reads players => players[j].location);
    cts := seq(|pcs|, j => []);
    assert Queued(chunks, 0, pcs, tick, cts, sent0, locs0);
    cts := QueueFrom(chunks, pcs, tick, cts, sent0, locs0);
  }

  // ------------------------------------------------------------------ state

  /** The `state` object handed to `init`: connections, world and configuration. */
  class ApiState {
    var conns: seq<PlayerConn>
    const world: World
    /** `state.config.client`, absent when not configured. */
    const clientConfig: Option<string>

    /** `init(s)`. */
    constructor(conns: seq<PlayerConn>, world: World, clientConfig: Option<string>)
      ensures this.conns == conns && this.world == world && this.clientConfig == clientConfig
    {
      this.conns, this.world, this.clientConfig := conns, world, clientConfig;
    }

    /**
     * `addConn(conn)`: the connection is appended and greeted with a handshake,
     * then with the client configuration when there is one.
     */
    method AddConn(pc: PlayerConn)
      modifies this`conns, pc.conn`outbox
      ensures conns == old(conns) + [pc]
      ensures var c := pc.conn;
        c.outbox == old(c.outbox) + Post(c.closed, Handshake)
          + (if clientConfig.Some? then Post(c.closed, Config(clientConfig.value)) else [])
    {
      conns := conns + [pc];
      pc.conn.SendHandshake();
      if clientConfig.Some? {
        pc.conn.Send(Config(clientConfig.value));
      }
    }

    /** The `close` handler of `addConn`: the connection is spliced out at its `indexOf`. */
    method RemoveConn(pc: PlayerConn)
      modifies this`conns
      ensures pc in old(conns) ==> exists ix :: (0 <= ix < |old(conns)| && old(conns)[ix] == pc
        && pc !in old(conns)[..ix] && conns == old(conns)[..ix] + old(conns)[ix + 1..])
      ensures pc !in old(conns) ==> conns == if |old(conns)| == 0 then [] else old(conns)[..|old(conns)| - 1]
    {
      var index := IndexOf(conns, pc);
      if pc in conns {
        RemoveFound(conns, pc);
      } else if |conns| > 0 {
        RemoveMissing(conns, pc);
      }
      conns := SpliceOne(conns, index);
    }

    /**
     * `updateObjects()`: each connection is sent, in one message, the views of
     * the other named players in range; nothing when there are none.
     */
    method UpdateObjects()
      requires Separate(conns)
      modifies ConnsOf(conns)`outbox
      ensures forall i :: 0 <= i < |conns| ==>
        var c := conns[i].conn; var views := old(ViewsFor(Players(conns), i));
        c.outbox == old(c.outbox) + PostList(c.closed, views, Views(views))
    {
      var lists := ViewLists(conns);
      assert forall k :: 0 <= k < |conns| ==> lists[k] == old(ViewsFor(Players(conns), k));
      SendViewLists(conns, lists);
    }

    /**
     * `updateChunks(tick)`: every chunk ends clean and marked as modified at
     * `tick`; each connection is sent, in one message, every chunk in range of
     * its player, in world order, and its cursors for them become `tick`.
     */
    method UpdateChunks(tick: int)
      requires Separate(conns) && world.Valid()
      modifies world.chunks`dirty, world.chunks`lastModifiedTick, conns`chunksSent, ConnsOf(conns)`outbox
      ensures forall i :: 0 <= i < |world.chunks| ==> !world.chunks[i].dirty && world.chunks[i].lastModifiedTick == tick
      ensures forall j :: 0 <= j < |conns| ==>
        var pc := conns[j]; var c := pc.conn;
        var batch := BazookaGame.Selected(world.chunks, |world.chunks|, InRangeOf(old(pc.player.location)));
        pc.chunksSent == BazookaGame.Stamped(old(pc.chunksSent), batch, tick)
        && c.outbox == old(c.outbox) + PostList(c.closed, batch, Chunks(batch))
    {
      var cts := QueueChunks(world.chunks, conns, tick);
      BazookaGame.SendBatches(conns, cts);
    }

    /** `handleSet(cmd)`: the voxel at the command's point is set. */
    method HandleSet(x: int, y: int, z: int, v: int)
      requires world.Valid()
      modifies world, world.chunkTable.Values
      ensures world.Valid() && world.GetVox(Coord(x, y, z)) == v
      ensures forall q :: OriginOf(q) != OriginOf(Coord(x, y, z)) ==> world.GetVox(q) == old(world.GetVox(q))
      ensures forall c :: c in world.chunkTable.Values ==> c in old(world.chunkTable.Values) || fresh(c)
      ensures SetEffect(old(world.chunkTable), old(VoxelsOf(world.chunkTable)), old(FlagsOf(world.chunkTable)),
                        world.chunkTable, VoxelsOf(world.chunkTable), FlagsOf(world.chunkTable), Coord(x, y, z), v)
    {
      ghost var vx1 := VoxelsOf(world.chunkTable);
      forall q
        ensures world.GetVox(q) == VoxAt(vx1, q)
      {
        ReadsAsSnapshot(world, q);
      }
      world.SetVox(Coord(x, y, z), v);
      forall q
        ensures world.GetVox(q) == VoxAt(VoxelsOf(world.chunkTable), q)
      {
        ReadsAsSnapshot(world, q);
      }
    }

    /**
     * `handleUpdate(message)`: the commands run in order; `set` writes a voxel
     * and every other command is ignored.  Every point a `set` wrote reads the
     * last value written there, every other point of the chunks no `set` touched
     * reads as before, the chunks written into are dirty, and no other flag of
     * an existing chunk changes.
     */
    method HandleUpdate(cmds: seq<Command>)
      requires world.Valid()
      modifies world, world.chunkTable.Values
      ensures world.Valid()
      ensures forall q :: LastSet(cmds, q).Some? ==> world.GetVox(q) == LastSet(cmds, q).value
      ensures forall q :: OriginOf(q) !in SetOrigins(cmds) ==> world.GetVox(q) == old(world.GetVox(q))
      ensures forall o :: o in SetOrigins(cmds) ==> o in world.chunkTable && world.chunkTable[o].dirty
      ensures forall c :: c in old(world.chunkTable.Values) ==>
        c.destroyed == old(c.destroyed) && c.lastModifiedTick == old(c.lastModifiedTick)
        && (c.Key() !in SetOrigins(cmds) ==> c.dirty == old(c.dirty))
      ensures |cmds| > 0 && cmds[|cmds| - 1].SetVoxCmd? ==>
        world.GetVox(cmds[|cmds| - 1].At()) == cmds[|cmds| - 1].v
    {
      ghost var t0, vx0, fl0 := world.chunkTable, VoxelsOf(world.chunkTable), FlagsOf(world.chunkTable);
      forall q
        ensures world.GetVox(q) == VoxAt(vx0, q)
      {
        ReadsAsSnapshot(world, q);
      }
      assert cmds[..0] == [];
      for i := 0 to |cmds|
        invariant world.Valid()
        invariant forall c :: c in world.chunkTable.Values ==> c in old(world.chunkTable.Values) || fresh(c)
        invariant BazookaGame.AppliedSets(world.chunkTable, VoxelsOf(world.chunkTable), FlagsOf(world.chunkTable), t0, vx0, fl0, cmds[..i])
      {
        ghost var t1, vx1, fl1 := world.chunkTable, VoxelsOf(world.chunkTable), FlagsOf(world.chunkTable);
        HandleCommand(cmds[i]);
        BazookaGame.AppliedStep(t1, vx1, fl1, world.chunkTable, VoxelsOf(world.chunkTable), FlagsOf(world.chunkTable),
                                t0, vx0, fl0, cmds, i);
      }
      assert cmds[..|cmds|] == cmds;
      BazookaGame.ReadBack(world, cmds, t0, vx0, fl0);
    }

    /** The callback of `handleUpdate` for one command: a `set` is `handleSet`, the others do nothing. */
    method HandleCommand(cmd: Command)
      requires world.Valid()
      modifies world, world.chunkTable.Values
      ensures world.Valid()
      ensures cmd.SetVoxCmd? ==> world.GetVox(cmd.At()) == cmd.v
      ensures forall q :: (cmd.SetVoxCmd? ==> OriginOf(q) != OriginOf(cmd.At())) ==> world.GetVox(q) == old(world.GetVox(q))
      ensures BazookaGame.CommandEffect(old(world.chunkTable), old(VoxelsOf(world.chunkTable)), old(FlagsOf(world.chunkTable)),
                                        world.chunkTable, VoxelsOf(world.chunkTable), FlagsOf(world.chunkTable), cmd)
      ensures forall c :: c in world.chunkTable.Values ==> c in old(world.chunkTable.Values) || fresh(c)
    {
      match cmd {
        case SetVoxCmd(x, y, z, v) =>
          HandleSet(x, y, z, v);
        case _ =>
      }
    }
  }
}
