/**
 * One Bazooka City game on the server (src/server/bazooka-game.ts): the player
 * connections, the LOBBY -> ACTIVE -> COMPLETED lifecycle, the game objects
 * (missiles), and the per-tick sync of objects and chunks to every connection.
 * The clock and `toCartesian` are parameters; `conn.send*` is recorded in each
 * connection's outbox.
 */
module BazookaGame {
  import opened Wrappers
  import opened Objects
  import opened Chunks
  import opened Worlds
  import opened Connections
  import opened Interest
  import Physics

  /** Player counts the configuration may set: a game needs at least one player. */
  type PlayerCount = n: nat | n >= 1 witness 1

  /** `config.BAZOOKA.MAX_PLAYERS`; its value is configuration and is left symbolic. */
  const MAX_PLAYERS: PlayerCount

  /** Objects and chunks go out on every 20th tick. */
  const SEND_PERIOD: nat := 20

  /** A player whose height drops below this has fallen off the island. */
  const FALL_Z: real := -100.0

  /** The message a fallen player's connection dies with. */
  const FELL: string := "you fell"

  /**
   * What `tick` hands to `die` for a fallen player as written: `new Error(FELL)`.
   * Its message is lost on the way to the client, which reads `undefined`.
   */
  function FellErrorAsWritten(): (e: ErrorValue)
    ensures e.message == FELL && WireMessage(e) == None
  {
    ErrorObject(FELL)
  }

  /**
   * The error a fallen player's connection dies with: a plain `{message: FELL}`,
   * as the older game sends it, so the client reads `FELL`.
   */
  function FellError(): (e: ErrorValue)
    ensures e.message == FELL && WireMessage(e) == Some(FELL)
  {
    PlainObject(FELL)
  }

  // ------------------------------------------------------------------ status

  /** The order of the lifecycle stages. */
  function Rank(s: GameStatus): nat {
    match s
    case Lobby => 0
    case Active => 1
    case Completed => 2
  }

  /**
   * The status after a player joins and the game has `count` players: a lobby
   * starts the game when it just became full; nothing else moves.
   */
  function StatusAfterAdd(s: GameStatus, count: nat): (r: GameStatus)
    ensures Rank(r) >= Rank(s)
    ensures r != s <==> s == Lobby && count == MAX_PLAYERS
    ensures r != s ==> r == Active
  {
    if s == Lobby && count == MAX_PLAYERS then Active else s
  }

  /**
   * The status after a player leaves and `alive` players are left alive: a running
   * game with at most one survivor is over; nothing else moves.
   */
  function StatusAfterRemove(s: GameStatus, alive: nat): (r: GameStatus)
    ensures Rank(r) >= Rank(s)
    ensures r != s <==> s == Active && alive <= 1
    ensures r != s ==> r == Completed
  {
    if alive <= 1 && s == Active then Completed else s
  }

  /** Any sequence of joins and departures only moves the status forward, and COMPLETED is final. */
  lemma {:induction false} StatusOnlyForward(s: GameStatus, events: seq<(bool, nat)>)
    ensures var r := StatusRun(s, events);
      Rank(r) >= Rank(s) && (s == Completed ==> r == Completed)
    decreases |events|
  {
    if events != [] {
      var s' := if events[0].0 then StatusAfterAdd(s, events[0].1) else StatusAfterRemove(s, events[0].1);
      StatusOnlyForward(s', events[1..]);
    }
  }

  /**
   * The status after a run of events, each a join (`true`, with the new player
   * count) or a departure (`false`, with the number left alive).
   */
  function StatusRun(s: GameStatus, events: seq<(bool, nat)>): GameStatus
    decreases |events|
  {
    if events == [] then s
    else
      var s' := if events[0].0 then StatusAfterAdd(s, events[0].1) else StatusAfterRemove(s, events[0].1);
      StatusRun(s', events[1..])
  }

  // ------------------------------------------------------------- alive count

  /** The number of the first `n` players whose health is above 0. */
  function AliveCountPrefix(players: seq<GameObj>, n: nat): (r: nat)
    requires n <= |players|
    reads players
    ensures r <= n
  {
    if n == 0 then 0
    else AliveCountPrefix(players, n - 1) + (if Alive(players[n - 1].health) then 1 else 0)
  }

  /** The count is 0 exactly when nobody is alive, and `n` exactly when everybody is. */
  lemma {:induction false} AliveCountExtremes(players: seq<GameObj>, n: nat)
    requires n <= |players|
    ensures AliveCountPrefix(players, n) == 0 <==> forall k :: 0 <= k < n ==> !Alive(players[k].health)
    ensures AliveCountPrefix(players, n) == n <==> forall k :: 0 <= k < n ==> Alive(players[k].health)
  {
    if n > 0 {
      AliveCountExtremes(players, n - 1);
    }
  }

  /** How many players are alive. */
  function AliveCount(players: seq<GameObj>): nat
    reads players
  {
    AliveCountPrefix(players, |players|)
  }

  // ------------------------------------------------------------ missile keys

  /** A decimal digit. */
  function Digit(d: nat): char
    requires d < 10
  {
    "0123456789"[d]
  }

  /** JavaScript's decimal rendering of a whole number, with no leading zeros. */
  function Decimal(n: nat): (s: string)
    ensures |s| >= 1
    ensures |s| == 1 <==> n < 10
    decreases n
  {
    if n < 10 then [Digit(n)] else Decimal(n / 10) + [Digit(n % 10)]
  }

  lemma DigitInjective(a: nat, b: nat)
    requires a < 10 && b < 10 && Digit(a) == Digit(b)
    ensures a == b
  {
  }

  /** Different numbers print differently. */
  lemma {:induction false} DecimalInjective(a: nat, b: nat)
    requires Decimal(a) == Decimal(b)
    ensures a == b
    decreases a
  {
    if a < 10 {
      DigitInjective(a, b);
    } else {
      var sa, sb := Decimal(a), Decimal(b);
      assert sa[..|sa| - 1] == Decimal(a / 10) && sb[..|sb| - 1] == Decimal(b / 10);
      DecimalInjective(a / 10, b / 10);
      DigitInjective(a % 10, b % 10);
    }
  }

  /** The key of the n-th missile: `'missile-' + n`. */
  function MissileKey(n: nat): string {
    "missile-" + Decimal(n)
  }

  /** Missile keys of different counter values differ. */
  lemma MissileKeyInjective(a: nat, b: nat)
    requires MissileKey(a) == MissileKey(b)
    ensures a == b
  {
    assert MissileKey(a)[8..] == Decimal(a);
    assert MissileKey(b)[8..] == Decimal(b);
    DecimalInjective(a, b);
  }

  /** The game's objects are the missiles fired so far, the i-th keyed by counter value i + 1. */
  ghost predicate MissilesNumbered(objs: seq<GameObj>, n: nat)
    reads objs
  {
    |objs| == n && forall i :: 0 <= i < |objs| ==> objs[i].key == MissileKey(i + 1) && objs[i].objType == MissileType
  }

  /** A missile keyed by the next counter value extends the numbering. */
  lemma MissilesNumberedAppend(objs: seq<GameObj>, n: nat, m: GameObj)
    requires MissilesNumbered(objs, n) && m.key == MissileKey(n + 1) && m.objType == MissileType
    ensures MissilesNumbered(objs + [m], n + 1)
  {
  }

  /** Numbered missiles have pairwise distinct keys, so no object appears twice. */
  lemma NumberedDistinct(objs: seq<GameObj>, n: nat)
    requires MissilesNumbered(objs, n)
    ensures forall i, j :: 0 <= i < j < |objs| ==> objs[i].key != objs[j].key
    ensures Physics.DistinctObjs(objs)
  {
    forall i, j | 0 <= i < j < |objs|
      ensures objs[i].key != objs[j].key
    {
      if objs[i].key == objs[j].key {
        MissileKeyInjective(i + 1, j + 1);
      }
    }
  }

  // -------------------------------------------------------------------- sync

  /** `pc.chunksSent[key]` is truthy: the chunk was sent at some tick other than 0. */
  predicate SentBefore(sent: map<Coord, int>, k: Coord) {
    k in sent && sent[k] != 0
  }

  /** The chunks of a list that are dirty. */
  function DirtyChunks(cs: seq<Chunk>): set<Chunk>
    reads set c | c in cs
  {
    set c | c in cs && c.dirty
  }

  /**
   * Whether `_sendChunks` sends a chunk to a player at `loc` whose cursor map was
   * `sent` when the pass began, given the chunks that were dirty then: in range,
   * and either never sent (or sent at tick 0) or modified since.
   */
  function WantsChunk(loc: Vec, sent: map<Coord, int>, dirty: set<Chunk>): Chunk -> bool {
    c => InRange(loc, ChunkPos(c)) && !(SentBefore(sent, c.Key()) && c !in dirty)
  }

  /** The first `n` chunks that `want` selects, in list order. */
  function Selected(cs: seq<Chunk>, n: nat, want: Chunk -> bool): (r: seq<Chunk>)
    requires n <= |cs|
    ensures |r| <= n
    ensures forall m :: 0 <= m < |r| ==> want(r[m]) && exists k :: 0 <= k < n && cs[k] == r[m]
    ensures forall k :: 0 <= k < n && want(cs[k]) ==> cs[k] in r
  {
    if n == 0 then [] else Selected(cs, n - 1, want) + (if want(cs[n - 1]) then [cs[n - 1]] else [])
  }

  /** The origins of a list of chunks. */
  function KeysOf(cs: seq<Chunk>): set<Coord> {
    set c | c in cs :: c.Key()
  }

  /** A cursor map after the chunks of a batch were sent at `tick`, in batch order. */
  function Stamped(sent: map<Coord, int>, batch: seq<Chunk>, tick: int): (r: map<Coord, int>)
    ensures r.Keys == sent.Keys + KeysOf(batch)
    ensures forall m :: 0 <= m < |batch| ==> r[batch[m].Key()] == tick
    ensures forall k :: k in sent && k !in KeysOf(batch) ==> r[k] == sent[k]
    decreases |batch|
  {
    if batch == [] then sent
    else
      var prefix, last := batch[..|batch| - 1], batch[|batch| - 1];
      assert batch == prefix + [last];
      assert KeysOf(batch) == KeysOf(prefix) + {last.Key()};
      Stamped(sent, prefix, tick)[last.Key() := tick]
  }

  /** One more chunk of the pass: the batch and the cursor map both take one step of their definitions. */
  lemma CollectStep(cs: seq<Chunk>, i: nat, want: Chunk -> bool, sent0: map<Coord, int>,
                    batch: seq<Chunk>, mid: map<Coord, int>, batch': seq<Chunk>, sent': map<Coord, int>, tick: int)
    requires i < |cs| && batch == Selected(cs, i, want) && mid == Stamped(sent0, batch, tick)
    requires batch' == batch + (if want(cs[i]) then [cs[i]] else [])
    requires sent' == if want(cs[i]) then mid[cs[i].Key() := tick] else mid
    ensures batch' == Selected(cs, i + 1, want) && sent' == Stamped(sent0, batch', tick)
  {
    assert Selected(cs, i + 1, want) == batch + (if want(cs[i]) then [cs[i]] else []);
    if want(cs[i]) {
      StampedAppend(sent0, batch, cs[i], tick);
    } else {
      assert batch' == batch;
    }
  }

  /** A chunk's origin is not among the origins of the chunks selected before it. */
  lemma SelectedBefore(cs: seq<Chunk>, n: nat, want: Chunk -> bool)
    requires KeysDistinct(cs) && n < |cs|
    ensures cs[n].Key() !in KeysOf(Selected(cs, n, want))
  {
  }

  /**
   * A chunk goes to a player at `loc` exactly when it is in range and its
   * cursor is missing or 0 (a chunk sent at tick 0 counts as never sent), or
   * it was dirty.
   */
  lemma ChunkSentExactly(cs: seq<Chunk>, loc: Vec, sent: map<Coord, int>, dirty: set<Chunk>, k: nat)
    requires k < |cs|
    ensures cs[k] in Selected(cs, |cs|, WantsChunk(loc, sent, dirty)) <==>
      InRange(loc, ChunkPos(cs[k])) && (cs[k].Key() !in sent || sent[cs[k].Key()] == 0 || cs[k] in dirty)
  {
  }

  /** A batch of a world's chunks never holds two chunks of the same origin. */
  lemma {:induction false} SelectedDistinct(cs: seq<Chunk>, n: nat, want: Chunk -> bool)
    requires KeysDistinct(cs) && n <= |cs|
    ensures KeysDistinct(Selected(cs, n, want))
  {
    if n > 0 {
      SelectedDistinct(cs, n - 1, want);
      SelectedBefore(cs, n - 1, want);
      var r0 := Selected(cs, n - 1, want);
      if want(cs[n - 1]) {
        var r := r0 + [cs[n - 1]];
        forall i, j | 0 <= i < j < |r|
          ensures r[i].Key() != r[j].Key()
        {
          if j == |r0| {
            assert r[i] in r0;
          }
        }
      }
    }
  }

  /** When `want` picks no chunk but `e`, a selection from distinct chunks is `e` or nothing. */
  lemma {:induction false} SelectedOnly(cs: seq<Chunk>, n: nat, want: Chunk -> bool, e: Chunk)
    requires n <= |cs| && KeysDistinct(cs)
    requires forall k :: 0 <= k < n && want(cs[k]) ==> cs[k] == e
    ensures Selected(cs, n, want) == if e in cs[..n] && want(e) then [e] else []
  {
    if n > 0 {
      SelectedOnly(cs, n - 1, want, e);
      assert cs[..n] == cs[..n - 1] + [cs[n - 1]];
      if cs[n - 1] == e {
        assert e !in cs[..n - 1] by {
          forall k | 0 <= k < n - 1
            ensures cs[k] != e
          {
            assert cs[k].Key() != cs[n - 1].Key();
          }
        }
      }
    }
  }

  /** After a pass at a nonzero tick, a chunk that was in range and is not dirty counts as sent. */
  lemma SentAfterPass(cs: seq<Chunk>, loc: Vec, sent0: map<Coord, int>, dirty0: set<Chunk>, t: int, c: Chunk)
    requires t != 0 && c in cs && InRange(loc, ChunkPos(c))
    ensures SentBefore(Stamped(sent0, Selected(cs, |cs|, WantsChunk(loc, sent0, dirty0)), t), c.Key())
  {
    var batch := Selected(cs, |cs|, WantsChunk(loc, sent0, dirty0));
    if WantsChunk(loc, sent0, dirty0)(c) {
      var k :| 0 <= k < |cs| && cs[k] == c;
      var m :| 0 <= m < |batch| && batch[m] == c;
    } else if c.Key() in KeysOf(batch) {
      var d :| d in batch && d.Key() == c.Key();
      var m :| 0 <= m < |batch| && batch[m] == d;
    }
  }

  /**
   * Chunks go out once per edit: after a pass of `_sendChunks` at a nonzero tick
   * `t` and then one edit, the next pass for a player at the same `loc` sends
   * the edited chunk alone, or nothing when it is out of range. `cs` is the
   * chunk list of the first pass and `cs'` that of the second, which holds the
   * chunks of `cs` and perhaps the edited chunk, now the only dirty one.
   */
  lemma ResendsOnlyEdited(cs: seq<Chunk>, cs': seq<Chunk>, loc: Vec, sent0: map<Coord, int>, dirty0: set<Chunk>,
                          t: int, edited: Chunk, dirty': set<Chunk>)
    requires t != 0 && KeysDistinct(cs') && edited in cs'
    requires forall c :: c in cs' ==> c in cs || c == edited
    requires forall c :: c in cs' ==> (c in dirty' <==> c == edited)
    ensures var sent1 := Stamped(sent0, Selected(cs, |cs|, WantsChunk(loc, sent0, dirty0)), t);
      Selected(cs', |cs'|, WantsChunk(loc, sent1, dirty')) == if InRange(loc, ChunkPos(edited)) then [edited] else []
  {
    var sent1 := Stamped(sent0, Selected(cs, |cs|, WantsChunk(loc, sent0, dirty0)), t);
    var want := WantsChunk(loc, sent1, dirty');
    forall k | 0 <= k < |cs'| && want(cs'[k])
      ensures cs'[k] == edited
    {
      if cs'[k] != edited {
        SentAfterPass(cs, loc, sent0, dirty0, t, cs'[k]);
      }
    }
    SelectedOnly(cs', |cs'|, want, edited);
    assert cs'[..|cs'|] == cs';
  }

  /**
   * One chunk of the pass of `_sendChunks` over the world: each connection in
   * range takes it when it never had it (or had it at tick 0) or the chunk was
   * dirty, and its cursor for the chunk becomes `tick`.
   */
  method OfferChunk(pcs: seq<PlayerConn>, chunk: Chunk, wasDirty: bool, tick: int, cts0: seq<seq<Chunk>>)
    returns (cts: seq<seq<Chunk>>)
    requires Separate(pcs) && |cts0| == |pcs|
    modifies pcs`chunksSent
    ensures |cts| == |pcs|
    ensures forall j :: 0 <= j < |pcs| ==>
      var pc := pcs[j];
      var want := InRange(pc.player.location, ChunkPos(chunk)) && !(SentBefore(old(pc.chunksSent), chunk.Key()) && !wasDirty);
      cts[j] == cts0[j] + (if want then [chunk] else [])
      && pc.chunksSent == if want then old(pc.chunksSent)[chunk.Key() := tick] else old(pc.chunksSent)
  {
    cts := cts0;
    var key := chunk.Key();
    for j := 0 to |pcs|
      invariant |cts| == |pcs|
      invariant forall k :: 0 <= k < j ==>
        var pc := pcs[k];
        var want := InRange(pc.player.location, ChunkPos(chunk)) && !(SentBefore(old(pc.chunksSent), key) && !wasDirty);
        cts[k] == cts0[k] + (if want then [chunk] else [])
        && pc.chunksSent == if want then old(pc.chunksSent)[key := tick] else old(pc.chunksSent)
      invariant forall k :: j <= k < |pcs| ==> cts[k] == cts0[k] && pcs[k].chunksSent == old(pcs[k].chunksSent)
    {
      var pc := pcs[j];
      var loc := pc.player.location;
      if !InRange(loc, ChunkPos(chunk)) {
        continue;
      }
      if SentBefore(pc.chunksSent, key) && !wasDirty {
        continue;
      }
      cts := cts[j := cts[j] + [chunk]];
      pc.chunksSent := pc.chunksSent[key := tick];
    }
  }

  /** Stamping one more chunk is stamping the batch, then that chunk's origin. */
  lemma StampedAppend(sent: map<Coord, int>, batch: seq<Chunk>, c: Chunk, tick: int)
    ensures Stamped(sent, batch + [c], tick) == Stamped(sent, batch, tick)[c.Key() := tick]
  {
    assert (batch + [c])[..|batch|] == batch;
  }

  /**
   * The first loop of `_sendChunks`: every chunk of the world is marked clean,
   * and each connection collects, in world order, the chunks it wants as of the
   * start of the pass (`WantsChunk`), stamping its cursor for each with `tick`.
   * The decision for a chunk reads the cursor of that chunk only, and origins
   * are distinct, so a cursor written earlier in the pass never changes a later
   * decision.
   */
  method CollectChunks(chunks: seq<Chunk>, pcs: seq<PlayerConn>, tick: int) returns (cts: seq<seq<Chunk>>)
    requires KeysDistinct(chunks) && Separate(pcs)
    modifies chunks`dirty, pcs`chunksSent
    ensures |cts| == |pcs|
    ensures forall i :: 0 <= i < |chunks| ==> !chunks[i].dirty
    ensures forall j :: 0 <= j < |pcs| ==>
      var want := old(WantsChunk(pcs[j].player.location, pcs[j].chunksSent, DirtyChunks(chunks)));
      cts[j] == Selected(chunks, |chunks|, want) && pcs[j].chunksSent == Stamped(old(pcs[j].chunksSent), cts[j], tick)
  {
    ghost var dirty0 := DirtyChunks(chunks);
    ghost var sent0 := seq(|pcs|, j requires 0 <= j < |pcs| reads pcs => pcs[j].chunksSent);
    ghost var players := Players(pcs);
    ghost var locs0 := seq(|players|, j requires 0 <= j < |players| reads players => players[j].location);
    cts := seq(|pcs|, j => []);
    assert Collected(chunks, 0, pcs, tick, cts, sent0, locs0, dirty0);
    cts := CollectFrom(chunks, pcs, tick, cts, sent0, locs0, dirty0);
  }

  /** The loop of the first pass of `_sendChunks`, from the start of the chunk list to its end. */
  method CollectFrom(chunks: seq<Chunk>, pcs: seq<PlayerConn>, tick: int, cts0: seq<seq<Chunk>>,
                     ghost sent0: seq<map<Coord, int>>, ghost locs0: seq<Vec>, ghost dirty0: set<Chunk>)
    returns (cts: seq<seq<Chunk>>)
    requires KeysDistinct(chunks) && Separate(pcs) && CleanedUpTo(chunks, 0, dirty0)
    requires forall j :: 0 <= j < |pcs| ==> j < |locs0| && pcs[j].player.location == locs0[j]
    requires Collected(chunks, 0, pcs, tick, cts0, sent0, locs0, dirty0)
    modifies chunks`dirty, pcs`chunksSent
    ensures CleanedUpTo(chunks, |chunks|, dirty0)
    ensures Collected(chunks, |chunks|, pcs, tick, cts, sent0, locs0, dirty0)
  {
    cts := cts0;
    for i := 0 to |chunks|
      invariant CleanedUpTo(chunks, i, dirty0)
      invariant forall j :: 0 <= j < |pcs| ==> j < |locs0| && pcs[j].player.location == locs0[j]
      invariant Collected(chunks, i, pcs, tick, cts, sent0, locs0, dirty0)
    {
      cts := PassChunk(chunks, i, pcs, tick, cts, sent0, locs0, dirty0);
    }
  }

  /** The body of the first loop of `_sendChunks` for chunk `i`: marked clean, then offered to every connection. */
  method PassChunk(chunks: seq<Chunk>, i: nat, pcs: seq<PlayerConn>, tick: int, cts0: seq<seq<Chunk>>,
                   ghost sent0: seq<map<Coord, int>>, ghost locs0: seq<Vec>, ghost dirty0: set<Chunk>)
    returns (cts: seq<seq<Chunk>>)
    requires KeysDistinct(chunks) && Separate(pcs) && i < |chunks| && CleanedUpTo(chunks, i, dirty0)
    requires forall j :: 0 <= j < |pcs| ==> j < |locs0| && pcs[j].player.location == locs0[j]
    requires Collected(chunks, i, pcs, tick, cts0, sent0, locs0, dirty0)
    modifies {chunks[i]}`dirty, pcs`chunksSent
    ensures CleanedUpTo(chunks, i + 1, dirty0)
    ensures Collected(chunks, i + 1, pcs, tick, cts, sent0, locs0, dirty0)
  {
    var wasDirty := MarkClean(chunks, i, dirty0);
    cts := CollectOne(chunks, i, wasDirty, pcs, tick, cts0, sent0, locs0, dirty0);
  }

  /** The first `i` chunks of the list are clean; the others are dirty exactly when they were at the start. */
  ghost predicate CleanedUpTo(chunks: seq<Chunk>, i: nat, dirty0: set<Chunk>)
    reads set c | c in chunks
  {
    forall c :: 0 <= c < |chunks| ==> (chunks[c].dirty <==> i <= c && chunks[c] in dirty0)
  }

  /**
   * The state of the first loop of `_sendChunks` after the first `i` chunks:
   * each connection holds the chunks it wants among them, and its cursor map
   * is its map at the start stamped with exactly those chunks.
   */
  ghost predicate Collected(chunks: seq<Chunk>, i: nat, pcs: seq<PlayerConn>, tick: int, cts: seq<seq<Chunk>>,
                            sent0: seq<map<Coord, int>>, locs0: seq<Vec>, dirty0: set<Chunk>)
    requires i <= |chunks|
    reads pcs
  {
    |cts| == |pcs| && |sent0| == |pcs| && |locs0| == |pcs|
    && forall j :: 0 <= j < |pcs| ==>
      var want := WantsChunk(locs0[j], sent0[j], dirty0);
      cts[j] == Selected(chunks, i, want) && pcs[j].chunksSent == Stamped(sent0[j], cts[j], tick)
  }

  /** Chunk `i` of the pass is marked clean; whether it was dirty is returned. */
  method MarkClean(chunks: seq<Chunk>, i: nat, ghost dirty0: set<Chunk>) returns (wasDirty: bool)
    requires KeysDistinct(chunks) && i < |chunks| && CleanedUpTo(chunks, i, dirty0)
    modifies {chunks[i]}`dirty
    ensures wasDirty <==> chunks[i] in dirty0
    ensures CleanedUpTo(chunks, i + 1, dirty0)
  {
    var chunk := chunks[i];
    wasDirty := chunk.dirty;
    chunk.dirty := false;
    assert forall c :: 0 <= c < |chunks| && c != i ==> chunks[c] != chunk;
  }

  /** Chunk `i` of the pass, which was dirty or not at the start, is offered to every connection. */
  method CollectOne(chunks: seq<Chunk>, i: nat, wasDirty: bool, pcs: seq<PlayerConn>, tick: int, cts0: seq<seq<Chunk>>,
                    ghost sent0: seq<map<Coord, int>>, ghost locs0: seq<Vec>, ghost dirty0: set<Chunk>)
    returns (cts: seq<seq<Chunk>>)
    requires KeysDistinct(chunks) && Separate(pcs) && i < |chunks|
    requires |cts0| == |pcs| && |sent0| == |pcs| && |locs0| == |pcs|
    requires wasDirty <==> chunks[i] in dirty0
    requires forall j :: 0 <= j < |pcs| ==> pcs[j].player.location == locs0[j]
    requires Collected(chunks, i, pcs, tick, cts0, sent0, locs0, dirty0)
    modifies pcs`chunksSent
    ensures Collected(chunks, i + 1, pcs, tick, cts, sent0, locs0, dirty0)
  {
    var chunk := chunks[i];
    forall j | 0 <= j < |pcs|
      ensures WantsChunk(locs0[j], sent0[j], dirty0)(chunk)
        == (InRange(pcs[j].player.location, ChunkPos(chunk)) && !(SentBefore(pcs[j].chunksSent, chunk.Key()) && !wasDirty))
    {
      SelectedBefore(chunks, i, WantsChunk(locs0[j], sent0[j], dirty0));
    }
    label Offer:
    cts := OfferChunk(pcs, chunk, wasDirty, tick, cts0);
    forall j | 0 <= j < |pcs|
      ensures var want := WantsChunk(locs0[j], sent0[j], dirty0);
        cts[j] == Selected(chunks, i + 1, want) && pcs[j].chunksSent == Stamped(sent0[j], cts[j], tick)
    {
      CollectStep(chunks, i, WantsChunk(locs0[j], sent0[j], dirty0), sent0[j], cts0[j], old@Offer(pcs[j].chunksSent), cts[j], pcs[j].chunksSent, tick);
    }
  }

  /** Whether the connection of player `i` is told about player `j`: another, named player in range. */
  predicate Sees(players: seq<GameObj>, i: nat, j: nat)
    requires i < |players| && j < |players|
    reads players
  {
    j != i && players[j].name != "" && InRange(players[i].location, players[j].location)
  }

  /**
   * The indices, below `n`, of the players the connection of player `i` is told
   * about, in connection order.
   */
  function VisibleOthers(players: seq<GameObj>, i: nat, n: nat): (r: seq<nat>)
    requires i < |players| && n <= |players|
    reads players
    ensures forall k :: 0 <= k < |r| ==> r[k] < n && Sees(players, i, r[k])
    ensures forall k, l :: 0 <= k < l < |r| ==> r[k] < r[l]
    ensures forall j :: 0 <= j < n && Sees(players, i, j) ==> j in r
  {
    if n == 0 then []
    else
      var r0 := VisibleOthers(players, i, n - 1);
      if Sees(players, i, n - 1) then r0 + [n - 1] else r0
  }

  /**
   * The object list `_sendObjects` sends to the connection of player `i`: the
   * visible players, in connection order, then every game object.
   */
  function ObjectsFor(players: seq<GameObj>, i: nat, objects: seq<GameObj>): (r: seq<GameObj>)
    requires i < |players|
    reads players
    ensures var v := VisibleOthers(players, i, |players|);
      |r| == |v| + |objects| && r[|v|..] == objects
      && forall k :: 0 <= k < |v| ==> r[k] == players[v[k]]
  {
    Pick(players, VisibleOthers(players, i, |players|)) + objects
  }

  /** The players at the given indices, in the same order. */
  function Pick(players: seq<GameObj>, v: seq<nat>): (r: seq<GameObj>)
    requires forall k :: 0 <= k < |v| ==> v[k] < |players|
    ensures |r| == |v| && forall k :: 0 <= k < |v| ==> r[k] == players[v[k]]
  {
    seq(|v|, k requires 0 <= k < |v| => players[v[k]])
  }

  /**
   * The list `_sendObjects` builds for the connection at `i`: a pass over the
   * connections that skips itself, unnamed players and players out of range,
   * then every game object.
   */
  method ObjectsToSend(pcs: seq<PlayerConn>, i: nat, objects: seq<GameObj>) returns (objs: seq<GameObj>)
    requires i < |pcs|
    ensures objs == ObjectsFor(Players(pcs), i, objects)
  {
    ghost var players := Players(pcs);
    var a := pcs[i].player;
    objs := [];
    for j := 0 to |pcs|
      invariant objs == Pick(players, VisibleOthers(players, i, j))
    {
      if j == i {
        continue;
      }
      var b := pcs[j].player;
      if b.name == "" {
        continue;
      }
      if !InRange(a.location, b.location) {
        continue;
      }
      assert VisibleOthers(players, i, j + 1) == VisibleOthers(players, i, j) + [j];
      objs := objs + [b];
    }
    ghost var visible := objs;
    for j := 0 to |objects|
      invariant objs == visible + objects[..j]
    {
      objs := objs + [objects[j]];
    }
    assert objects[..|objects|] == objects;
  }

  /**
   * The lists the loop of `_sendObjects` builds, one per connection.  Sending
   * changes no player, so building every list before the first send yields
   * the same lists as building each just before its own send.
   */
  method ObjectLists(pcs: seq<PlayerConn>, objects: seq<GameObj>) returns (lists: seq<seq<GameObj>>)
    ensures |lists| == |pcs| && forall k :: 0 <= k < |pcs| ==> lists[k] == ObjectsFor(Players(pcs), k, objects)
  {
    lists := [];
    for i := 0 to |pcs|
      invariant |lists| == i && forall k :: 0 <= k < i ==> lists[k] == ObjectsFor(Players(pcs), k, objects)
    {
      var objs := ObjectsToSend(pcs, i, objects);
      lists := lists + [objs];
    }
  }

  /** The sends of the loop of `_sendObjects`: each connection is sent its list. */
  method SendObjectLists(pcs: seq<PlayerConn>, lists: seq<seq<GameObj>>)
    requires Separate(pcs) && |lists| == |pcs|
    modifies ConnsOf(pcs)`outbox
    ensures forall k :: 0 <= k < |pcs| ==>
      var c := pcs[k].conn; c.outbox == old(c.outbox) + PostList(c.closed, lists[k], Objects(lists[k]))
  {
    for j := 0 to |pcs|
      invariant forall k :: 0 <= k < j ==>
        var c := pcs[k].conn; c.outbox == old(c.outbox) + PostList(c.closed, lists[k], Objects(lists[k]))
      invariant forall k :: j <= k < |pcs| ==> pcs[k].conn.outbox == old(pcs[k].conn.outbox)
    {
      pcs[j].conn.SendObjects(lists[j]);
    }
  }

  /** The second loop of `_sendChunks`: each connection is sent its batch. */
  method SendBatches(pcs: seq<PlayerConn>, cts: seq<seq<Chunk>>)
    requires Separate(pcs) && |cts| == |pcs|
    modifies ConnsOf(pcs)`outbox
    ensures forall k :: 0 <= k < |pcs| ==>
      var c := pcs[k].conn; c.outbox == old(c.outbox) + PostList(c.closed, cts[k], Chunks(cts[k]))
  {
    for j := 0 to |pcs|
      invariant forall k :: 0 <= k < j ==>
        var c := pcs[k].conn; c.outbox == old(c.outbox) + PostList(c.closed, cts[k], Chunks(cts[k]))
      invariant forall k :: j <= k < |pcs| ==> pcs[k].conn.outbox == old(pcs[k].conn.outbox)
    {
      pcs[j].conn.SendChunks(cts[j]);
    }
  }

  /** A connection is never sent its own player, as long as players are not game objects. */
  lemma NeverSelf(pcs: seq<PlayerConn>, i: nat, objects: seq<GameObj>)
    requires Separate(pcs) && i < |pcs| && pcs[i].player !in objects
    ensures pcs[i].player !in ObjectsFor(Players(pcs), i, objects)
  {
    var v := VisibleOthers(Players(pcs), i, |pcs|);
    var r := ObjectsFor(Players(pcs), i, objects);
    forall k | 0 <= k < |r|
      ensures r[k] != pcs[i].player
    {
      if k >= |v| {
        assert r[k] == objects[k - |v|];
      }
    }
  }

  // -------------------------------------------------------------------- game

  /** A client update: its player record and its commands. */
  datatype Update = Update(player: ObjData, commands: seq<Command>)

  /**
   * A world snapshot (table, voxels and flags, by origin) after running `cmds`
   * in order, compared with the snapshot before: every point a `set` wrote holds
   * the last value written there, the rest reads as before, the chunks written
   * into are dirty, and no other flag of an earlier chunk changed.
   */
  ghost predicate AppliedSets(t: map<Coord, Chunk>, vx: map<Coord, map<Coord, int>>, fl: map<Coord, (bool, bool, int)>,
                              t0: map<Coord, Chunk>, vx0: map<Coord, map<Coord, int>>, fl0: map<Coord, (bool, bool, int)>,
                              cmds: seq<Command>)
  {
    && (forall o :: o in t0 ==> o in t && t[o] == t0[o])
    && (forall q :: LastSet(cmds, q).Some? ==> VoxAt(vx, q) == LastSet(cmds, q).value)
    && (forall q :: OriginOf(q) !in SetOrigins(cmds) ==> VoxAt(vx, q) == VoxAt(vx0, q))
    && (forall o :: o in SetOrigins(cmds) ==> o in fl && fl[o].0)
    && (forall o :: o in fl0 ==> o in fl && fl[o].1 == fl0[o].1 && fl[o].2 == fl0[o].2
                                 && (o !in SetOrigins(cmds) ==> fl[o].0 == fl0[o].0))
  }

  /** The summary of the commands, read back through `getVox` and the chunks' own flags. */
  lemma ReadBack(w: World, cmds: seq<Command>, t0: map<Coord, Chunk>, vx0: map<Coord, map<Coord, int>>,
                 fl0: map<Coord, (bool, bool, int)>)
    requires w.Valid()
    requires AppliedSets(w.chunkTable, VoxelsOf(w.chunkTable), FlagsOf(w.chunkTable), t0, vx0, fl0, cmds)
    ensures forall q :: LastSet(cmds, q).Some? ==> w.GetVox(q) == LastSet(cmds, q).value
    ensures forall q :: OriginOf(q) !in SetOrigins(cmds) ==> w.GetVox(q) == VoxAt(vx0, q)
    ensures forall o :: o in SetOrigins(cmds) ==> o in w.chunkTable && w.chunkTable[o].dirty
    ensures forall o :: o in fl0 ==>
      (&& o in w.chunkTable
       && w.chunkTable[o].destroyed == fl0[o].1 && w.chunkTable[o].lastModifiedTick == fl0[o].2
       && (o !in SetOrigins(cmds) ==> w.chunkTable[o].dirty == fl0[o].0))
  {
    forall q
      ensures w.GetVox(q) == VoxAt(VoxelsOf(w.chunkTable), q)
    {
      ReadsAsSnapshot(w, q);
    }
  }

  /** The effect of one command of an update on a world snapshot: a `set` is `SetEffect`, the others change nothing. */
  ghost predicate CommandEffect(t1: map<Coord, Chunk>, vx1: map<Coord, map<Coord, int>>, fl1: map<Coord, (bool, bool, int)>,
                                t2: map<Coord, Chunk>, vx2: map<Coord, map<Coord, int>>, fl2: map<Coord, (bool, bool, int)>,
                                cmd: Command)
  {
    if cmd.SetVoxCmd? then SetEffect(t1, vx1, fl1, t2, vx2, fl2, cmd.At(), cmd.v)
    else t2 == t1 && vx2 == vx1 && fl2 == fl1
  }

  /** Running one more command extends the summary of the commands run so far. */
  lemma AppliedStep(t1: map<Coord, Chunk>, vx1: map<Coord, map<Coord, int>>, fl1: map<Coord, (bool, bool, int)>,
                    t2: map<Coord, Chunk>, vx2: map<Coord, map<Coord, int>>, fl2: map<Coord, (bool, bool, int)>,
                    t0: map<Coord, Chunk>, vx0: map<Coord, map<Coord, int>>, fl0: map<Coord, (bool, bool, int)>,
                    cmds: seq<Command>, i: nat)
    requires i < |cmds| && vx1.Keys == fl1.Keys
    requires AppliedSets(t1, vx1, fl1, t0, vx0, fl0, cmds[..i])
    requires CommandEffect(t1, vx1, fl1, t2, vx2, fl2, cmds[i])
    ensures AppliedSets(t2, vx2, fl2, t0, vx0, fl0, cmds[..i + 1])
  {
    SetOriginsStep(cmds, i);
    AppliedStepWritten(t1, vx1, fl1, t2, vx2, fl2, t0, vx0, fl0, cmds, i);
    AppliedStepUntouched(t1, vx1, fl1, t2, vx2, fl2, t0, vx0, fl0, cmds, i);
  }

  /** The step for the points some `set` wrote: the new one holds its value, the others keep theirs. */
  lemma AppliedStepWritten(t1: map<Coord, Chunk>, vx1: map<Coord, map<Coord, int>>, fl1: map<Coord, (bool, bool, int)>,
                    t2: map<Coord, Chunk>, vx2: map<Coord, map<Coord, int>>, fl2: map<Coord, (bool, bool, int)>,
                    t0: map<Coord, Chunk>, vx0: map<Coord, map<Coord, int>>, fl0: map<Coord, (bool, bool, int)>,
                    cmds: seq<Command>, i: nat)
    requires i < |cmds| && vx1.Keys == fl1.Keys
    requires AppliedSets(t1, vx1, fl1, t0, vx0, fl0, cmds[..i])
    requires CommandEffect(t1, vx1, fl1, t2, vx2, fl2, cmds[i])
    ensures forall q :: LastSet(cmds[..i + 1], q).Some? ==> VoxAt(vx2, q) == LastSet(cmds[..i + 1], q).value
  {
    forall q | LastSet(cmds[..i + 1], q).Some?
      ensures VoxAt(vx2, q) == LastSet(cmds[..i + 1], q).value
    {
      LastSetStep(cmds, i, q);
    }
  }

  /** The step for the points no `set` wrote and for the chunk flags. */
  lemma AppliedStepUntouched(t1: map<Coord, Chunk>, vx1: map<Coord, map<Coord, int>>, fl1: map<Coord, (bool, bool, int)>,
                    t2: map<Coord, Chunk>, vx2: map<Coord, map<Coord, int>>, fl2: map<Coord, (bool, bool, int)>,
                    t0: map<Coord, Chunk>, vx0: map<Coord, map<Coord, int>>, fl0: map<Coord, (bool, bool, int)>,
                    cmds: seq<Command>, i: nat)
    requires i < |cmds|
    requires SetOrigins(cmds[..i + 1]) == SetOrigins(cmds[..i]) + (if cmds[i].SetVoxCmd? then {OriginOf(cmds[i].At())} else {})
    requires AppliedSets(t1, vx1, fl1, t0, vx0, fl0, cmds[..i])
    requires CommandEffect(t1, vx1, fl1, t2, vx2, fl2, cmds[i])
    ensures forall o :: o in t0 ==> o in t2 && t2[o] == t0[o]
    ensures forall q :: OriginOf(q) !in SetOrigins(cmds[..i + 1]) ==> VoxAt(vx2, q) == VoxAt(vx0, q)
    ensures forall o :: o in SetOrigins(cmds[..i + 1]) ==> o in fl2 && fl2[o].0
    ensures forall o :: o in fl0 ==> o in fl2 && fl2[o].1 == fl0[o].1 && fl2[o].2 == fl0[o].2
                                     && (o !in SetOrigins(cmds[..i + 1]) ==> fl2[o].0 == fl0[o].0)
  {
  }


  /** The number of `fire-bazooka` commands in a list. */
  function Fires(cmds: seq<Command>): (r: nat)
    ensures r <= |cmds|
  {
    if cmds == [] then 0 else Fires(cmds[..|cmds| - 1]) + (if cmds[|cmds| - 1].FireBazookaCmd? then 1 else 0)
  }

  lemma FiresAppend(cmds: seq<Command>, c: Command)
    ensures Fires(cmds + [c]) == Fires(cmds) + Fires([c])
  {
    assert (cmds + [c])[..|cmds|] == cmds;
    assert [c][..0] == [];
  }

  /** `toCartesian(azimuth, altitude, r)`, outside this model. */
  type Cartesian = (real, real, real) -> Vec

  /** The launch velocity of a missile fired by a player facing `dir`: 0.5 rad above the view, speed 15. */
  function LaunchVelocity(dir: Dir, toCartesian: Cartesian): Vec {
    toCartesian(dir.azimuth, dir.altitude + 0.5, 15.0)
  }

  /** Every missile of `ms` starts where player `p` stands, at the launch velocity of its view. */
  ghost predicate FiredFrom(ms: seq<GameObj>, p: GameObj, toCartesian: Cartesian)
    reads ms, p
  {
    forall m :: m in ms ==>
      m.objType == MissileType && m.location == p.location && m.velocity == LaunchVelocity(p.direction, toCartesian)
  }

  /** Two runs of missiles fired from the same player make one. */
  lemma FiredFromAppend(a: seq<GameObj>, b: seq<GameObj>, p: GameObj, toCartesian: Cartesian)
    requires FiredFrom(a, p, toCartesian) && FiredFrom(b, p, toCartesian)
    ensures FiredFrom(a + b, p, toCartesian)
  {
  }

  class Game {
    var playerConns: seq<PlayerConn>
    const world: World
    var status: GameStatus
    var objects: seq<GameObj>
    var nextObjKey: nat
    var totalPlayers: nat

    /**
     * The game's invariant: the connections keep theirs, and the objects are the
     * missiles fired so far, numbered by the counter.  The world keeps its own
     * (`world.Valid()`), which the operations that touch it require and ensure.
     */
    ghost predicate Valid()
      reads this, objects
    {
      ConnsValid() && MissilesNumbered(objects, nextObjKey)
    }

    /**
     * Each connection is its own; a lobby is never full; `totalPlayers` is at
     * least the current count (it is only updated on joins); no player is a
     * game object.
     */
    ghost predicate ConnsValid()
      reads this
    {
      Separate(playerConns)
      && (status == Lobby ==> |playerConns| < MAX_PLAYERS)
      && |playerConns| <= totalPlayers
      && forall k :: 0 <= k < |playerConns| ==> playerConns[k].player !in objects
    }

    /** `new BazookaGame()`: an empty lobby over an empty world. */
    constructor()
      ensures Valid() && world.Valid() && fresh(world) && world.chunks == []
      ensures playerConns == [] && status == Lobby && objects == [] && nextObjKey == 0 && totalPlayers == 0
    {
      playerConns := [];
      world := new World();
      status := Lobby;
      objects := [];
      nextObjKey := 0;
      totalPlayers := 0;
    }

    /** `getNumPlayersAlive()`. */
    method NumPlayersAlive() returns (n: nat)
      ensures n == AliveCount(Players(playerConns))
      ensures n <= |playerConns|
    {
      n := 0;
      for i := 0 to |playerConns|
        invariant n == AliveCountPrefix(Players(playerConns), i)
      {
        n := n + if Alive(playerConns[i].player.health) then 1 else 0;
      }
    }

    /** `sendStatus()`: every connection is told the status, the alive count and the total. */
    method SendStatus()
      requires Separate(playerConns)
      modifies ConnsOf(playerConns)`outbox
      ensures var alive := old(AliveCount(Players(playerConns)));
        forall k :: 0 <= k < |playerConns| ==> var c := playerConns[k].conn;
          c.outbox == old(c.outbox) + Post(c.closed, Status(status, alive, totalPlayers))
    {
      var alive := NumPlayersAlive();
      Broadcast(playerConns, Status(status, alive, totalPlayers));
    }

    /**
     * `addPlayer(playerConn)`: the connection joins; a lobby that just became full
     * starts the game; the total is the new count; everybody, the newcomer
     * included, gets the status.  The server creates a new connection, socket
     * and player for every client, so the newcomer is separate from the others.
     */
    method AddPlayer(pc: PlayerConn)
      requires Valid()
      requires Separate(playerConns + [pc]) && pc.player !in objects
      modifies this`playerConns, this`status, this`totalPlayers, ConnsOf(playerConns + [pc])`outbox
      ensures Valid()
      ensures playerConns == old(playerConns) + [pc]
      ensures status == StatusAfterAdd(old(status), |playerConns|)
      ensures totalPlayers == |playerConns|
      ensures var alive := old(AliveCount(Players(playerConns + [pc])));
        forall k :: 0 <= k < |playerConns| ==> var c := playerConns[k].conn;
          c.outbox == old(c.outbox) + Post(c.closed, Status(status, alive, totalPlayers))
    {
      Join(pc);
      SendStatus();
    }

    /** The bookkeeping half of `addPlayer`, before the status goes out. */
    method Join(pc: PlayerConn)
      requires ConnsValid()
      requires Separate(playerConns + [pc]) && pc.player !in objects
      modifies this`playerConns, this`status, this`totalPlayers
      ensures ConnsValid()
      ensures playerConns == old(playerConns) + [pc]
      ensures status == StatusAfterAdd(old(status), |playerConns|)
      ensures totalPlayers == |playerConns|
    {
      playerConns := playerConns + [pc];
      if status == Lobby && |playerConns| == MAX_PLAYERS {
        status := Active;
      }
      totalPlayers := |playerConns|;
    }

    /**
     * `removePlayer(id)`: the first connection with that id leaves; a running
     * game with at most one player left alive ends; the remaining connections
     * are told the status, the departed one nothing.  An unknown id changes
     * nothing and sends nothing.
     */
    method RemovePlayer(id: string)
      requires Valid()
      modifies this`playerConns, this`status, ConnsOf(playerConns)`outbox
      ensures Valid()
      ensures IndexOfId(old(playerConns), id).None? ==>
        (playerConns == old(playerConns) && status == old(status)
         && forall k :: 0 <= k < |playerConns| ==> var c := playerConns[k].conn; c.outbox == old(c.outbox))
      ensures IndexOfId(old(playerConns), id).Some? ==>
        var ix := IndexOfId(old(playerConns), id).value;
        playerConns == old(playerConns[..ix] + playerConns[ix + 1..])
        && var alive := old(AliveCount(Players(playerConns[..ix] + playerConns[ix + 1..])));
        status == StatusAfterRemove(old(status), alive)
        && (forall k :: 0 <= k < |playerConns| ==> var c := playerConns[k].conn;
              c.outbox == old(c.outbox) + Post(c.closed, Status(status, alive, totalPlayers)))
        && var gone := old(playerConns[ix]).conn; gone.outbox == old(gone.outbox)
    {
      var found := IndexOfId(playerConns, id);
      if found.None? {
        return;
      }
      RemoveAt(found.value);
    }

    /** `removePlayer` once the index `ix` of the departing connection is found. */
    method RemoveAt(ix: nat)
      requires Valid() && ix < |playerConns|
      modifies this`playerConns, this`status, ConnsOf(playerConns)`outbox
      ensures Valid()
      ensures playerConns == old(playerConns[..ix] + playerConns[ix + 1..])
      ensures var alive := old(AliveCount(Players(playerConns[..ix] + playerConns[ix + 1..])));
        status == StatusAfterRemove(old(status), alive)
        && (forall k :: 0 <= k < |playerConns| ==> var c := playerConns[k].conn;
              c.outbox == old(c.outbox) + Post(c.closed, Status(status, alive, totalPlayers)))
      ensures var gone := old(playerConns[ix]).conn; gone.outbox == old(gone.outbox)
    {
      ghost var alive := AliveCount(Players(playerConns[..ix] + playerConns[ix + 1..]));
      Leave(ix);
      assert AliveCount(Players(playerConns)) == alive;
      SendStatus();
    }

    /** The bookkeeping half of `removePlayer`, once the index is found. */
    method Leave(ix: nat)
      requires ConnsValid() && ix < |playerConns|
      modifies this`playerConns, this`status
      ensures ConnsValid()
      ensures playerConns == old(playerConns[..ix] + playerConns[ix + 1..])
      ensures status == StatusAfterRemove(old(status), old(AliveCount(Players(playerConns[..ix] + playerConns[ix + 1..]))))
      ensures old(playerConns[ix]).conn !in ConnsOf(playerConns)
    {
      SeparateRemove(playerConns, ix);
      playerConns := playerConns[..ix] + playerConns[ix + 1..];
      var alive := NumPlayersAlive();
      if alive <= 1 && status == Active {
        EndGame();
      }
    }

    /**
     * `_sendObjects()`: each connection is sent, in one message, the named
     * players in range other than its own, then every game object; nothing when
     * that list is empty.
     */
    method SendObjects()
      requires Separate(playerConns)
      modifies ConnsOf(playerConns)`outbox
      ensures forall i :: 0 <= i < |playerConns| ==>
        var c := playerConns[i].conn; var objs := old(ObjectsFor(Players(playerConns), i, objects));
        c.outbox == old(c.outbox) + PostList(c.closed, objs, Objects(objs))
    {
      var lists := ObjectLists(playerConns, objects);
      assert forall k :: 0 <= k < |playerConns| ==> lists[k] == old(ObjectsFor(Players(playerConns), k, objects));
      SendObjectLists(playerConns, lists);
    }

    /**
     * `_sendChunks(tick)`: every chunk ends clean; each connection is sent, in
     * one message, the chunks it wants as of the start (in range, and never
     * sent, sent at tick 0, or dirty), in world order, and its cursors for
     * them become `tick`.
     */
    method SendChunks(tick: int)
      requires Separate(playerConns) && world.Valid()
      modifies world.chunks`dirty, playerConns`chunksSent, ConnsOf(playerConns)`outbox
      ensures forall i :: 0 <= i < |world.chunks| ==> !world.chunks[i].dirty
      ensures forall j :: 0 <= j < |playerConns| ==>
        var pc := playerConns[j]; var c := pc.conn;
        var batch := Selected(world.chunks, |world.chunks|, old(WantsChunk(pc.player.location, pc.chunksSent, DirtyChunks(world.chunks))));
        pc.chunksSent == Stamped(old(pc.chunksSent), batch, tick) && c.outbox == old(c.outbox) + PostList(c.closed, batch, Chunks(batch))
    {
      var cts := CollectChunks(world.chunks, playerConns, tick);
      SendBatches(playerConns, cts);
    }

    /**
     * The end of `tick`: the connection of every player below `FALL_Z` dies with
     * `FellError()`, whose message `FELL` reaches the client.
     */
    method KillFallen()
      requires Separate(playerConns)
      modifies ConnsOf(playerConns)`error, ConnsOf(playerConns)`outbox
      ensures forall k :: 0 <= k < |playerConns| ==>
        var c := playerConns[k].conn;
        if playerConns[k].player.location.z < FALL_Z && old(c.error).None?
        then c.error == Some(FellError()) && c.outbox == old(c.outbox) + Post(c.closed, Error(FellError()))
        else c.error == old(c.error) && c.outbox == old(c.outbox)
    {
      for j := 0 to |playerConns|
        invariant forall k :: 0 <= k < j ==>
          var c := playerConns[k].conn;
          if playerConns[k].player.location.z < FALL_Z && old(c.error).None?
          then c.error == Some(FellError()) && c.outbox == old(c.outbox) + Post(c.closed, Error(FellError()))
          else c.error == old(c.error) && c.outbox == old(c.outbox)
        invariant forall k :: j <= k < |playerConns| ==>
          playerConns[k].conn.error == old(playerConns[k].conn.error) && playerConns[k].conn.outbox == old(playerConns[k].conn.outbox)
      {
        var pc := playerConns[j];
        if pc.player.location.z < FALL_Z {
          pc.conn.Die(FellError());
        }
      }
    }

    /**
     * `tick(tick, dt)` with the clock reading `nowMs`: nothing unless the game is
     * ACTIVE; then the objects take a physics step, and on every 20th tick the
     * objects and chunks are sent and the connections of fallen players die.
     */
    method Tick(tick: int, nowMs: real)
      requires Valid() && world.Valid()
      modifies objects`location, objects`velocity, objects`situation, objects`rotTheta, objects`rotVel
      modifies world.chunks`dirty, playerConns`chunksSent, ConnsOf(playerConns)`outbox, ConnsOf(playerConns)`error
      ensures Valid() && world.Valid()
      ensures status != Active ==>
        unchanged(objects) && unchanged(world.chunks) && unchanged(playerConns) && unchanged(ConnsOf(playerConns))
      ensures status == Active ==> forall i :: 0 <= i < |objects| ==>
        Physics.BodyOf(objects[i])
        == Physics.ObjNext(objects[i].objType, objects[i].lastUpdateMs, old(Physics.BodyOf(objects[i])), old(Physics.ColliderOf(world)), nowMs)
      ensures status == Active && tick % SEND_PERIOD != 0 ==>
        unchanged(world.chunks) && unchanged(playerConns) && unchanged(ConnsOf(playerConns))
      ensures status == Active && tick % SEND_PERIOD == 0 ==> forall i :: 0 <= i < |world.chunks| ==> !world.chunks[i].dirty
    {
      if status != Active {
        return;
      }
      Simulate(nowMs);
      if tick % SEND_PERIOD == 0 {
        SendAndCull(tick);
      }
    }

    /** The every-20th-tick part of `tick`: objects and chunks are sent, then fallen players' connections die. */
    method SendAndCull(tick: int)
      requires Separate(playerConns) && world.Valid()
      modifies world.chunks`dirty, playerConns`chunksSent, ConnsOf(playerConns)`outbox, ConnsOf(playerConns)`error
      ensures forall i :: 0 <= i < |world.chunks| ==> !world.chunks[i].dirty
    {
      SendSync(tick);
      KillFallen();
    }

    /** `_sendObjects()` then `_sendChunks(tick)`. */
    method SendSync(tick: int)
      requires Separate(playerConns) && world.Valid()
      modifies world.chunks`dirty, playerConns`chunksSent, ConnsOf(playerConns)`outbox
      ensures forall i :: 0 <= i < |world.chunks| ==> !world.chunks[i].dirty
      ensures forall k :: 0 <= k < |playerConns| ==>
        var pc := playerConns[k]; var c := pc.conn;
        var objs := old(ObjectsFor(Players(playerConns), k, objects));
        var batch := Selected(world.chunks, |world.chunks|, old(WantsChunk(pc.player.location, pc.chunksSent, DirtyChunks(world.chunks))));
        pc.chunksSent == Stamped(old(pc.chunksSent), batch, tick)
        && c.outbox == old(c.outbox) + PostList(c.closed, objs, Objects(objs)) + PostList(c.closed, batch, Chunks(batch))
    {
      SendObjects();
      label Objects:
      assert old@Objects(DirtyChunks(world.chunks)) == old(DirtyChunks(world.chunks));
      SendChunks(tick);
    }

    /** `_simulate(nowMs)`: every game object takes one physics step against the world. */
    method Simulate(nowMs: real)
      requires Valid()
      modifies objects`location, objects`velocity, objects`situation, objects`rotTheta, objects`rotVel
      ensures Valid()
      ensures forall i :: 0 <= i < |objects| ==>
        Physics.BodyOf(objects[i])
        == Physics.ObjNext(objects[i].objType, objects[i].lastUpdateMs, old(Physics.BodyOf(objects[i])), old(Physics.ColliderOf(world)), nowMs)
    {
      NumberedDistinct(objects, nextObjKey);
      Physics.SimObjects(objects, Physics.ColliderOf(world), nowMs);
    }

    /**
     * `_handleSet(cmd)`: the voxel at the command's point is set, and the chunk
     * holding it (new or not) is dirty; every other chunk keeps its flags.
     */
    method HandleSet(x: int, y: int, z: int, v: int)
      requires world.Valid()
      modifies world, world.chunkTable.Values
      ensures world.Valid() && world.GetVox(Coord(x, y, z)) == v
      ensures forall q :: OriginOf(q) != OriginOf(Coord(x, y, z)) ==> world.GetVox(q) == old(world.GetVox(q))
      ensures forall q :: q != Coord(x, y, z) && old(OriginOf(q) in world.chunkTable) ==> world.GetVox(q) == old(world.GetVox(q))
      ensures forall o :: o in old(world.chunkTable) ==> o in world.chunkTable && world.chunkTable[o] == old(world.chunkTable[o])
      ensures OriginOf(Coord(x, y, z)) in world.chunkTable && world.chunkTable[OriginOf(Coord(x, y, z))].dirty
      ensures forall c :: c in old(world.chunkTable.Values) ==>
        c.destroyed == old(c.destroyed) && c.lastModifiedTick == old(c.lastModifiedTick)
        && (c.Key() != OriginOf(Coord(x, y, z)) ==> c.dirty == old(c.dirty))
      ensures forall c :: c in world.chunkTable.Values ==> c in old(world.chunkTable.Values) || fresh(c)
      ensures SetEffect(old(world.chunkTable), old(VoxelsOf(world.chunkTable)), old(FlagsOf(world.chunkTable)),
                        world.chunkTable, VoxelsOf(world.chunkTable), FlagsOf(world.chunkTable), Coord(x, y, z), v)
    {
      ghost var t1, vx1 := world.chunkTable, VoxelsOf(world.chunkTable);
      forall q
        ensures world.GetVox(q) == VoxAt(vx1, q)
      {
        ReadsAsSnapshot(world, q);
      }
      world.SetVox(Coord(x, y, z), v);
      forall q
        ensures world.GetVox(q) == VoxAt(VoxelsOf(world.chunkTable), q)
      {
        ReadsAsSnapshot(world, q);
      }
    }

    /**
     * `_handleUpdate(pc, update)`: the client's player record is copied over the
     * player's, then the commands run in order: `set` writes a voxel,
     * `fire-bazooka` fires a missile, anything else is ignored.  Afterwards
     * every point a `set` wrote holds the value of the last `set` there, the
     * chunks written into are dirty, and the rest of the world is as before.
     */
    method HandleUpdate(pc: PlayerConn, update: Update, toCartesian: Cartesian)
      requires Valid() && world.Valid() && pc.player !in objects
      modifies pc.player, world, world.chunkTable.Values, this`objects, this`nextObjKey
      ensures Valid() && world.Valid()
      ensures var p := pc.player; var d := update.player;
        p.objType == d.objType && p.key == d.key && p.location == d.location && p.velocity == d.velocity
        && p.lastUpdateMs == d.lastUpdateMs
        && p.name == (if d.name.Some? then d.name.value else old(p.name))
        && p.direction == (if d.direction.Some? then d.direction.value else old(p.direction))
        && p.situation == (if d.situation.Some? then d.situation else old(p.situation))
        && p.mode == (if d.mode.Some? then d.mode.value else old(p.mode))
        && p.rotTheta == (if d.rotTheta.Some? then d.rotTheta.value else old(p.rotTheta))
        && p.rotVel == (if d.rotVel.Some? then d.rotVel.value else old(p.rotVel))
        && p.typeIndex == (if d.typeIndex.Some? then d.typeIndex.value else old(p.typeIndex))
        && p.health == (if d.health.Some? then d.health else old(p.health))
        && p.input == (if d.input.Some? then d.input else old(p.input))
      ensures nextObjKey == old(nextObjKey) + Fires(update.commands)
      ensures |objects| == |old(objects)| + Fires(update.commands) && objects[..|old(objects)|] == old(objects)
      ensures FiredFrom(objects[|old(objects)|..], pc.player, toCartesian)
      ensures forall q :: LastSet(update.commands, q).Some? ==> world.GetVox(q) == LastSet(update.commands, q).value
      ensures forall q :: OriginOf(q) !in SetOrigins(update.commands) ==> world.GetVox(q) == old(world.GetVox(q))
      ensures forall o :: o in SetOrigins(update.commands) ==> o in world.chunkTable && world.chunkTable[o].dirty
      ensures forall c :: c in old(world.chunkTable.Values) ==>
        c.destroyed == old(c.destroyed) && c.lastModifiedTick == old(c.lastModifiedTick)
        && (c.Key() !in SetOrigins(update.commands) ==> c.dirty == old(c.dirty))
    {
      pc.player.Assign(update.player);
      if |update.commands| == 0 {
        return;
      }
      HandleCommands(pc, update.commands, toCartesian);
    }

    /** `update.commands.forEach(...)`: the commands of an update, in order. */
    method HandleCommands(pc: PlayerConn, cmds: seq<Command>, toCartesian: Cartesian)
      requires Valid() && world.Valid() && pc.player !in objects
      modifies world, world.chunkTable.Values, this`objects, this`nextObjKey
      ensures Valid() && world.Valid()
      ensures nextObjKey == old(nextObjKey) + Fires(cmds)
      ensures |objects| == |old(objects)| + Fires(cmds) && objects[..|old(objects)|] == old(objects)
      ensures FiredFrom(objects[|old(objects)|..], pc.player, toCartesian)
      ensures forall q :: LastSet(cmds, q).Some? ==> world.GetVox(q) == LastSet(cmds, q).value
      ensures forall q :: OriginOf(q) !in SetOrigins(cmds) ==> world.GetVox(q) == old(world.GetVox(q))
      ensures forall o :: o in SetOrigins(cmds) ==> o in world.chunkTable && world.chunkTable[o].dirty
      ensures forall c :: c in old(world.chunkTable.Values) ==>
        c.destroyed == old(c.destroyed) && c.lastModifiedTick == old(c.lastModifiedTick)
        && (c.Key() !in SetOrigins(cmds) ==> c.dirty == old(c.dirty))
    {
      ghost var t0, vx0, fl0 := world.chunkTable, VoxelsOf(world.chunkTable), FlagsOf(world.chunkTable);
      ghost var k0, objs0 := nextObjKey, objects;
      forall q
        ensures world.GetVox(q) == VoxAt(vx0, q)
      {
        ReadsAsSnapshot(world, q);
      }
      assert cmds[..0] == [];
      for i := 0 to |cmds|
        invariant Valid() && world.Valid() && pc.player !in objects
        invariant forall c :: c in world.chunkTable.Values ==> c in old(world.chunkTable.Values) || fresh(c)
        invariant nextObjKey == k0 + Fires(cmds[..i])
        invariant |objects| == |objs0| + Fires(cmds[..i]) && objects[..|objs0|] == objs0
        invariant FiredFrom(objects[|objs0|..], pc.player, toCartesian)
        invariant AppliedSets(world.chunkTable, VoxelsOf(world.chunkTable), FlagsOf(world.chunkTable), t0, vx0, fl0, cmds[..i])
      {
        HandleNext(pc, cmds, i, toCartesian, t0, vx0, fl0, k0, objs0);
      }
      assert cmds[..|cmds|] == cmds;
      ReadBack(world, cmds, t0, vx0, fl0);
    }

    /** One pass of the command loop: runs command `i` and extends the summary by it. */
    method HandleNext(pc: PlayerConn, cmds: seq<Command>, i: nat, toCartesian: Cartesian,
                      ghost t0: map<Coord, Chunk>, ghost vx0: map<Coord, map<Coord, int>>,
                      ghost fl0: map<Coord, (bool, bool, int)>, ghost k0: int, ghost objs0: seq<GameObj>)
      requires i < |cmds| && Valid() && world.Valid() && pc.player !in objects
      requires nextObjKey == k0 + Fires(cmds[..i])
      requires |objects| == |objs0| + Fires(cmds[..i]) && objects[..|objs0|] == objs0
      requires FiredFrom(objects[|objs0|..], pc.player, toCartesian)
      requires AppliedSets(world.chunkTable, VoxelsOf(world.chunkTable), FlagsOf(world.chunkTable), t0, vx0, fl0, cmds[..i])
      modifies world, world.chunkTable.Values, this`objects, this`nextObjKey
      ensures Valid() && world.Valid() && pc.player !in objects
      ensures forall c :: c in world.chunkTable.Values ==> c in old(world.chunkTable.Values) || fresh(c)
      ensures nextObjKey == k0 + Fires(cmds[..i + 1])
      ensures |objects| == |objs0| + Fires(cmds[..i + 1]) && objects[..|objs0|] == objs0
      ensures FiredFrom(objects[|objs0|..], pc.player, toCartesian)
      ensures AppliedSets(world.chunkTable, VoxelsOf(world.chunkTable), FlagsOf(world.chunkTable), t0, vx0, fl0, cmds[..i + 1])
    {
      ghost var t1, vx1, fl1 := world.chunkTable, VoxelsOf(world.chunkTable), FlagsOf(world.chunkTable);
      assert cmds[..i + 1] == cmds[..i] + [cmds[i]];
      FiresAppend(cmds[..i], cmds[i]);
      HandleCommand(pc, cmds[i], toCartesian, |objs0|);
      AppliedStep(t1, vx1, fl1, world.chunkTable, VoxelsOf(world.chunkTable), FlagsOf(world.chunkTable), t0, vx0, fl0, cmds, i);
    }

    /** One command of an update. */
    method HandleCommand(pc: PlayerConn, cmd: Command, toCartesian: Cartesian, ghost base: nat)
      requires Valid() && world.Valid() && pc.player !in objects
      requires base <= |objects| && FiredFrom(objects[base..], pc.player, toCartesian)
      modifies world, world.chunkTable.Values, this`objects, this`nextObjKey
      ensures Valid() && world.Valid() && pc.player !in objects
      ensures nextObjKey == old(nextObjKey) + Fires([cmd])
      ensures |objects| == |old(objects)| + Fires([cmd]) && objects[..|old(objects)|] == old(objects)
      ensures FiredFrom(objects[base..], pc.player, toCartesian)
      ensures CommandEffect(old(world.chunkTable), old(VoxelsOf(world.chunkTable)), old(FlagsOf(world.chunkTable)),
                            world.chunkTable, VoxelsOf(world.chunkTable), FlagsOf(world.chunkTable), cmd)
      ensures forall c :: c in world.chunkTable.Values ==> c in old(world.chunkTable.Values) || fresh(c)
    {
      match cmd {
        case SetVoxCmd(_, _, _, _) =>
          SetCase(pc, cmd, toCartesian, base);
        case FireBazookaCmd =>
          FireCase(pc, cmd, toCartesian, base);
        case UnknownCmd(_) =>
          assert [cmd][..0] == [];
      }
    }

    /** The `set` case of `HandleCommand`: the missiles are untouched. */
    method SetCase(pc: PlayerConn, cmd: Command, toCartesian: Cartesian, ghost base: nat)
      requires cmd.SetVoxCmd? && Valid() && world.Valid() && pc.player !in objects
      requires base <= |objects| && FiredFrom(objects[base..], pc.player, toCartesian)
      modifies world, world.chunkTable.Values
      ensures Valid() && world.Valid() && pc.player !in objects
      ensures nextObjKey == old(nextObjKey) + Fires([cmd])
      ensures |objects| == |old(objects)| + Fires([cmd]) && objects[..|old(objects)|] == old(objects)
      ensures FiredFrom(objects[base..], pc.player, toCartesian)
      ensures CommandEffect(old(world.chunkTable), old(VoxelsOf(world.chunkTable)), old(FlagsOf(world.chunkTable)),
                            world.chunkTable, VoxelsOf(world.chunkTable), FlagsOf(world.chunkTable), cmd)
      ensures forall c :: c in world.chunkTable.Values ==> c in old(world.chunkTable.Values) || fresh(c)
    {
      ghost var fired := objects[base..];
      SetCommand(pc, cmd);
      assert unchanged(fired) && unchanged(pc.player);
    }

    /** The `fire-bazooka` case of `HandleCommand`: the new missile joins the run. */
    method FireCase(pc: PlayerConn, cmd: Command, toCartesian: Cartesian, ghost base: nat)
      requires cmd.FireBazookaCmd? && Valid() && world.Valid() && pc.player !in objects
      requires base <= |objects| && FiredFrom(objects[base..], pc.player, toCartesian)
      modifies this`objects, this`nextObjKey
      ensures Valid() && world.Valid() && pc.player !in objects
      ensures nextObjKey == old(nextObjKey) + Fires([cmd])
      ensures |objects| == |old(objects)| + Fires([cmd]) && objects[..|old(objects)|] == old(objects)
      ensures FiredFrom(objects[base..], pc.player, toCartesian)
      ensures CommandEffect(old(world.chunkTable), old(VoxelsOf(world.chunkTable)), old(FlagsOf(world.chunkTable)),
                            world.chunkTable, VoxelsOf(world.chunkTable), FlagsOf(world.chunkTable), cmd)
      ensures forall c :: c in world.chunkTable.Values ==> c in old(world.chunkTable.Values) || fresh(c)
    {
      ghost var fired, n := objects[base..], |objects|;
      FireCommand(pc, cmd, toCartesian);
      assert unchanged(fired) && unchanged(pc.player);
      assert objects[base..] == fired + objects[n..];
      FiredFromAppend(fired, objects[n..], pc.player, toCartesian);
    }

    /** The `set` case of `HandleCommand`. */
    method SetCommand(pc: PlayerConn, cmd: Command)
      requires cmd.SetVoxCmd? && Valid() && world.Valid() && pc.player !in objects
      modifies world, world.chunkTable.Values
      ensures Valid() && world.Valid() && pc.player !in objects
      ensures nextObjKey == old(nextObjKey) + Fires([cmd])
      ensures |objects| == |old(objects)| + Fires([cmd]) && objects[..|old(objects)|] == old(objects)
      ensures CommandEffect(old(world.chunkTable), old(VoxelsOf(world.chunkTable)), old(FlagsOf(world.chunkTable)),
                            world.chunkTable, VoxelsOf(world.chunkTable), FlagsOf(world.chunkTable), cmd)
      ensures forall c :: c in world.chunkTable.Values ==> c in old(world.chunkTable.Values) || fresh(c)
    {
      assert [cmd][..0] == [];
      assert Fires([cmd]) == 0 && Valid();
      HandleSet(cmd.x, cmd.y, cmd.z, cmd.v);
    }

    /** The `fire-bazooka` case of `HandleCommand`. */
    method FireCommand(pc: PlayerConn, cmd: Command, toCartesian: Cartesian)
      requires cmd.FireBazookaCmd? && Valid() && world.Valid() && pc.player !in objects
      modifies this`objects, this`nextObjKey
      ensures Valid() && world.Valid() && pc.player !in objects
      ensures nextObjKey == old(nextObjKey) + Fires([cmd])
      ensures |objects| == |old(objects)| + Fires([cmd]) && objects[..|old(objects)|] == old(objects)
      ensures FiredFrom(objects[|old(objects)|..], pc.player, toCartesian)
      ensures CommandEffect(old(world.chunkTable), old(VoxelsOf(world.chunkTable)), old(FlagsOf(world.chunkTable)),
                            world.chunkTable, VoxelsOf(world.chunkTable), FlagsOf(world.chunkTable), cmd)
      ensures forall c :: c in world.chunkTable.Values ==> c in old(world.chunkTable.Values) || fresh(c)
    {
      assert [cmd][..0] == [];
      HandleFireBazooka(pc, toCartesian);
    }

    /** `endGame()`. */
    method EndGame()
      modifies this`status
      ensures status == Completed
    {
      status := Completed;
    }

    /** `_handleFireBazooka(pc)`: a new missile at the player's location, keyed by the next counter value. */
    method HandleFireBazooka(pc: PlayerConn, toCartesian: Cartesian)
      requires Valid()
      modifies this`objects, this`nextObjKey
      ensures Valid()
      ensures nextObjKey == old(nextObjKey) + 1
      ensures |objects| == |old(objects)| + 1 && objects[..|old(objects)|] == old(objects)
      ensures var m := objects[|objects| - 1];
        fresh(m) && m.objType == MissileType && m.key == MissileKey(nextObjKey)
        && m.location == pc.player.location && m.velocity == LaunchVelocity(pc.player.direction, toCartesian)
    ensures FiredFrom(objects[|old(objects)|..], pc.player, toCartesian)
    {
      var dir := pc.player.direction;
      var vel := toCartesian(dir.azimuth, dir.altitude + 0.5, 15.0);
      var n := nextObjKey + 1;
      var missile := NewMissile(MissileKey(n), pc.player.location, vel);
      MissilesNumberedAppend(objects, nextObjKey, missile);
      objects, nextObjKey := objects + [missile], n;
      assert ConnsValid();
    }
  }

  /** `new MissileObj(key)` placed at `location` and moving at `velocity`. */
  method NewMissile(key: string, location: Vec, velocity: Vec) returns (m: GameObj)
    ensures fresh(m) && m.objType == MissileType && m.key == key
    ensures m.location == location && m.velocity == velocity
  {
    m := new GameObj.Missile(key);
    m.location, m.velocity := location, velocity;
  }

  /** The same message to every connection of a list, in order. */
  method Broadcast(pcs: seq<PlayerConn>, m: Msg)
    requires Separate(pcs)
    modifies ConnsOf(pcs)`outbox
    ensures forall k :: 0 <= k < |pcs| ==> var c := pcs[k].conn; c.outbox == old(c.outbox) + Post(c.closed, m)
  {
    for j := 0 to |pcs|
      invariant forall k :: 0 <= k < j ==> pcs[k].conn.outbox == old(pcs[k].conn.outbox) + Post(pcs[k].conn.closed, m)
      invariant forall k :: j <= k < |pcs| ==> pcs[k].conn.outbox == old(pcs[k].conn.outbox)
    {
      pcs[j].conn.Send(m);
    }
  }

  /** `playerConns.findIndex(c => c.id === id)`, as an option. */
  function IndexOfId(pcs: seq<PlayerConn>, id: string): (r: Option<nat>)
    ensures r.Some? ==>
      (r.value < |pcs| && pcs[r.value].id == id && forall k :: 0 <= k < r.value ==> pcs[k].id != id)
    ensures r.None? <==> forall k :: 0 <= k < |pcs| ==> pcs[k].id != id
  {
    if pcs == [] then None
    else if pcs[0].id == id then Some(0)
    else
      var rest := IndexOfId(pcs[1..], id);
      if rest.None? then None else Some(rest.value + 1)
  }
}
