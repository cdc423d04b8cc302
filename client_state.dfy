/**
 * The browser client's shared state (`GameState` of src/types.ts, the `state`
 * literal of src/client/bundle.ts) and the devices it reads: the input shell and
 * the websocket.
 */
module ClientState {
  import opened Wrappers
  import opened Objects
  import opened Chunks
  import opened Worlds

  /** `CameraMode`. */
  datatype CameraMode = FirstPerson | ThirdPerson

  /**
   * The input shell for one tick (`env.shell`): the buttons held down (`wasDown`),
   * the buttons pressed since the last tick (`press`), and the mouse position now
   * and one tick ago.
   */
  datatype Shell = Shell(down: set<string>, pressed: set<string>,
                         mouseX: real, mouseY: real, prevMouseX: real, prevMouseY: real)
  {
    predicate WasDown(button: string) {
      button in down
    }

    predicate Press(button: string) {
      button in pressed
    }
  }

  /** `state.lookAtBlock`: the cell the picker found and the normal of the face it hit. */
  datatype LookAt = LookAt(location: Coord, side: Coord)

  /** A JSON message the client sends. */
  datatype ClientMsg = UpdateMsg(player: ObjData, commands: seq<Command>) | ActivateMsg

  /** An object as `JSON.stringify` writes it: every field it holds. */
  function DataOf(o: GameObj): (d: ObjData)
    reads o
  {
    ObjData(o.objType, o.key, o.location, o.velocity, o.lastUpdateMs, Some(o.name), Some(o.direction),
            o.situation, Some(o.mode), Some(o.rotTheta), Some(o.rotVel), Some(o.typeIndex), o.health, o.input)
  }

  /**
   * The client's end of the websocket (src/client/socket.ts): whether it is
   * open, and every JSON message sent so far.
   */
  class Socket<Msg> {
    var ready: bool
    var sent: seq<Msg>

    constructor(ready: bool)
      ensures this.ready == ready && sent == []
    {
      this.ready := ready;
      sent := [];
    }

    /** `send(msg)`: throws unless the socket is open; otherwise the message goes out. */
    method Send(msg: Msg) returns (r: Outcome)
      modifies this`sent
      ensures r.Pass? <==> ready
      ensures sent == if ready then old(sent) + [msg] else old(sent)
    {
      if !ready {
        return Fail("websocket state");
      }
      sent := sent + [msg];
      r := Pass;
    }
  }

  /** All game state of the client. */
  class GameState {
    var startTime: real
    var paused: bool
    var cameraMode: CameraMode
    /** `state.lookAtBlock`, which `breakBlock` reads; nothing assigns it after start-up. */
    var lookAtBlock: Option<LookAt>
    /** `state.player.lookAtBlock`, where the picker (src/client/picker.ts) stores the block it finds. */
    var playerLookAt: Option<LookAt>
    var player: GameObj
    var pendingCommands: seq<Command>
    var pendingChunkUpdates: seq<Chunk>
    /** `debug.showHUD`. */
    var showHUD: bool
    var gameStatus: GameStatus
    var objects: map<string, GameObj>
    const world: World
    const socket: Socket<ClientMsg>
    var config: Option<string>
    var error: Option<string>
    var totalPlayers: int
    var alivePlayers: int

    /**
     * The initial state: paused, not started, first-person camera, a player with
     * an empty key, nothing pending, an empty world and a LOBBY status.
     */
    constructor(socket: Socket<ClientMsg>)
      ensures startTime == 0.0 && paused && cameraMode == FirstPerson && lookAtBlock == None && playerLookAt == None
      ensures fresh(player) && player.key == "" && player.objType == PlayerType && player.input == None
      ensures pendingCommands == [] && pendingChunkUpdates == [] && showHUD
      ensures gameStatus == Lobby && objects == map[]
      ensures fresh(world) && world.Valid() && world.chunks == []
      ensures this.socket == socket && config == None && error == None
      ensures totalPlayers == 0 && alivePlayers == 0
    {
      startTime, paused, cameraMode, lookAtBlock, playerLookAt := 0.0, true, FirstPerson, None, None;
      player := new GameObj.Player("", "");
      pendingCommands, pendingChunkUpdates, showHUD := [], [], true;
      gameStatus, objects := Lobby, map[];
      world := new World();
      this.socket := socket;
      config, error := None, None;
      totalPlayers, alivePlayers := 0, 0;
    }
  }
}
