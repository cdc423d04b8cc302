/**
 * The server's view of one client connection (src/server/conn.ts and its older
 * twin src/server/conn.js) and the player record the game keeps per connection
 * (src/server/player-conn.ts).  The socket itself is not modelled: everything a
 * connection sends is recorded, in order, in its `outbox`.
 */
module Connections {
  import opened Wrappers
  import opened Objects
  import opened Chunks

  /** What the view of another player in the older object message carries. */
  datatype PlayerView = PlayerView(
    key: string, location: Vec, velocity: Vec, name: string, direction: Dir, situation: Option<ObjSituation>)

  /**
   * A message sent to a client.  `Objects` and `Chunks` name the objects and
   * chunks whose state is serialised at the moment of sending; the chunk wire
   * format itself (src/protocol/chunk-io) is not part of this model.
   */
  datatype Msg =
    | Handshake
    | Config(config: string)
    | Status(status: GameStatus, alive: nat, total: nat)
    | Objects(objects: seq<GameObj>)
    | Views(views: seq<PlayerView>)
    | Chunks(chunks: seq<Chunk>)
    | Error(error: ErrorValue)

  /**
   * The value handed to `die`: an `Error` instance (`new Error(m)`) or a plain
   * object with a `message` field (`{message: m}`).
   */
  datatype ErrorValue = ErrorObject(message: string) | PlainObject(message: string)

  /**
   * The `message` the client reads from `msg.error` once `send` has passed the
   * value through `JSON.stringify`: an `Error` instance's message is not an
   * enumerable own property, so it is dropped and the client reads `undefined`
   * (None); a plain object's message arrives intact.
   */
  function WireMessage(e: ErrorValue): Option<string> {
    if e.PlainObject? then Some(e.message) else None
  }

  /** The messages one `send` leaves in the outbox: none once the socket has closed. */
  function Post(closed: bool, m: Msg): seq<Msg> {
    if closed then [] else [m]
  }

  /** The messages a `sendObjects`/`sendChunks` of a list leaves: none for an empty list. */
  function PostList<T>(closed: bool, items: seq<T>, m: Msg): (r: seq<Msg>)
    ensures |r| <= 1
    ensures r != [] <==> !closed && items != []
  {
    if items == [] then [] else Post(closed, m)
  }

  class Conn {
    /** Set by the socket's close event, which is outside this model. */
    const closed: bool
    /** The first error the connection died with. */
    var error: Option<ErrorValue>
    /** Every message sent so far, oldest first. */
    var outbox: seq<Msg>

    constructor(closed: bool)
      ensures this.closed == closed && error == None && outbox == []
    {
      this.closed := closed;
      error, outbox := None, [];
    }

    /** `send(message)`: recorded unless the socket has closed. */
    method Send(m: Msg)
      modifies this`outbox
      ensures outbox == old(outbox) + Post(closed, m)
    {
      if !closed {
        outbox := outbox + [m];
      }
    }

    /**
     * `die(error)`: only the first error counts; it is kept and sent to the
     * client.  A later call changes nothing.
     */
    method Die(e: ErrorValue)
      modifies this`error, this`outbox
      ensures old(error).Some? ==> error == old(error) && outbox == old(outbox)
      ensures old(error).None? ==> error == Some(e) && outbox == old(outbox) + Post(closed, Error(e))
    {
      if error.Some? {
        return;
      }
      error := Some(e);
      Send(Error(e));
    }

    /** `sendHandshake()`. */
    method SendHandshake()
      modifies this`outbox
      ensures outbox == old(outbox) + Post(closed, Handshake)
    {
      Send(Handshake);
    }

    /** `sendObjects(objects)`: nothing for an empty list. */
    method SendObjects(objects: seq<GameObj>)
      modifies this`outbox
      ensures outbox == old(outbox) + PostList(closed, objects, Objects(objects))
    {
      if |objects| == 0 {
        return;
      }
      Send(Objects(objects));
    }

    /**
     * `sendChunks(chunks)`: nothing for an empty list; otherwise one binary
     * message written from a freshly reset buffer, so it holds this batch only.
     */
    method SendChunks(chunks: seq<Chunk>)
      modifies this`outbox
      ensures outbox == old(outbox) + PostList(closed, chunks, Chunks(chunks))
    {
      if |chunks| == 0 {
        return;
      }
      Send(Chunks(chunks));
    }

    /** `sendStatus(status, alive, total)`, as the game calls it. */
    method SendStatus(status: GameStatus, alive: nat, total: nat)
      modifies this`outbox
      ensures outbox == old(outbox) + Post(closed, Status(status, alive, total))
    {
      Send(Status(status, alive, total));
    }
  }

  /**
   * `PlayerConn`: a connection, its player (keyed by the connection's id) and the
   * tick at which each chunk was last sent to it.
   */
  class PlayerConn {
    const id: string
    const conn: Conn
    const player: GameObj
    var chunksSent: map<Coord, int>

    /** `new PlayerConn(conn)`; the random id is a parameter. */
    constructor(id: string, conn: Conn)
      ensures this.id == id && this.conn == conn && chunksSent == map[]
      ensures fresh(player) && player.key == id && player.objType == PlayerType && player.name == ""
      ensures player.location == ZERO && player.velocity == ZERO && player.health == None
    {
      this.id, this.conn := id, conn;
      player := new GameObj.Player(id, "anon");
      chunksSent := map[];
    }
  }

  /** The connections of a list of player connections. */
  function ConnsOf(pcs: seq<PlayerConn>): set<Conn> {
    set pc | pc in pcs :: pc.conn
  }

  /** The players of a list of player connections, in the same order. */
  function Players(pcs: seq<PlayerConn>): (r: seq<GameObj>)
    ensures |r| == |pcs| && forall k :: 0 <= k < |pcs| ==> r[k] == pcs[k].player
  {
    seq(|pcs|, k requires 0 <= k < |pcs| => pcs[k].player)
  }

  /**
   * Each entry of the list is its own connection: no record, socket or player
   * object appears twice.
   */
  predicate Separate(pcs: seq<PlayerConn>) {
    forall i, j :: 0 <= i < j < |pcs| ==>
      pcs[i] != pcs[j] && pcs[i].conn != pcs[j].conn && pcs[i].player != pcs[j].player
  }

  /** Dropping an entry keeps the others separate. */
  lemma SeparateRemove(pcs: seq<PlayerConn>, ix: nat)
    requires Separate(pcs) && ix < |pcs|
    ensures Separate(pcs[..ix] + pcs[ix + 1..])
    ensures pcs[ix].conn !in ConnsOf(pcs[..ix] + pcs[ix + 1..])
    ensures pcs[ix].player !in Players(pcs[..ix] + pcs[ix + 1..])
  {
    var r := pcs[..ix] + pcs[ix + 1..];
    forall k | 0 <= k < |r|
      ensures r[k] == pcs[if k < ix then k else k + 1]
    {
    }
  }
}
