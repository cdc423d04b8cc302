/**
 * The state of the older client (the `state` literal of src/client/index.js): a
 * local player record instead of a game object, and remote objects drawn by
 * the player model of src/client/models/player.js.
 */
module LegacyClientState {
  import opened Wrappers
  import opened Objects
  import opened Chunks
  import opened Worlds
  import opened ClientState
  import LegacyPhysics

  /** A value under an object's `props`. */
  datatype PropValue = PNull | PNumber(n: real) | PString(s: string) | PDir(d: Dir)

  /** The local player of the older client. */
  class LegacyPlayer {
    var location: Vec
    var direction: Dir
    var velocity: Vec
    var situation: LegacyPhysics.Situation
    var lookAtBlock: Option<LookAt>
    var camera: CameraMode
    /**
     * `player.placing`: the voxel value a left click places.  The state literal
     * has no such field and nothing in the older client assigns one, so it is
     * absent.
     */
    var placing: Option<int>

    /** The player of the state literal: at (0, 0, 100), at rest, airborne, third-person, with no `placing`. */
    constructor()
      ensures location == Vec(0.0, 0.0, 100.0) && direction == Dir(0.0, 0.0) && velocity == ZERO
      ensures situation == LegacyPhysics.InAir && lookAtBlock == None && camera == ThirdPerson
      ensures placing == None
    {
      location, direction, velocity := Vec(0.0, 0.0, 100.0), Dir(0.0, 0.0), ZERO;
      situation, lookAtBlock, camera := LegacyPhysics.InAir, None, ThirdPerson;
      placing := None;
    }
  }

  /** The player record as `JSON.stringify` writes it into an update (an absent `placing` is left out). */
  datatype PlayerRecord = PlayerRecord(location: Vec, direction: Dir, velocity: Vec,
                                       situation: LegacyPhysics.Situation, lookAtBlock: Option<LookAt>,
                                       camera: CameraMode, placing: Option<int>)

  function RecordOf(p: LegacyPlayer): PlayerRecord
    reads p
  {
    PlayerRecord(p.location, p.direction, p.velocity, p.situation, p.lookAtBlock, p.camera, p.placing)
  }

  /** The only JSON message the older client sends. */
  datatype LegacyMsg = LegacyUpdate(player: PlayerRecord, commands: seq<Command>)

  /** What kind of drawable object a remote object is. */
  datatype Kind = PlayerKind | BlockKind

  /** A remote object of the older client. */
  class LegacyObj {
    const kind: Kind
    var location: Option<Vec>
    var direction: Option<Dir>
    var velocity: Option<Vec>
    var situation: Option<string>
    var props: map<string, PropValue>
    var lastUpdateMs: real
    /** Set by `destroy()`, which frees the object's GPU buffers. */
    var destroyed: bool

    /**
     * `new Player(name)`: at the origin, at rest, with the default props; the
     * name argument is not used (`props.name` starts null).
     */
    constructor Player()
      ensures kind == PlayerKind && location == Some(ZERO) && velocity == Some(ZERO)
      ensures direction == None && situation == None && lastUpdateMs == 0.0 && !destroyed
      ensures props == DEFAULT_PROPS
    {
      kind := PlayerKind;
      location, velocity, direction, situation := Some(ZERO), Some(ZERO), None, None;
      props, lastUpdateMs, destroyed := DEFAULT_PROPS, 0.0, false;
    }

    /**
     * A falling block (src/client/models/falling-block.ts): at the origin, at
     * rest.  That class declares no props; the block is given an empty props
     * map so that the merge of `info.props` can run on it.
     */
    constructor Block()
      ensures kind == BlockKind && location == Some(ZERO) && velocity == Some(ZERO)
      ensures direction == None && situation == None && lastUpdateMs == 0.0 && !destroyed
      ensures props == map[]
    {
      kind := BlockKind;
      location, velocity, direction, situation := Some(ZERO), Some(ZERO), None, None;
      props, lastUpdateMs, destroyed := map[], 0.0, false;
    }

    /** `destroy()`. */
    method Destroy()
      modifies this`destroyed
      ensures destroyed
    {
      destroyed := true;
    }
  }

  /** The props a new player model starts with. */
  const DEFAULT_PROPS: map<string, PropValue> :=
    map["name" := PNull, "direction" := PDir(Dir(0.0, 0.0)), "situation" := PString("airborne"), "walk" := PNumber(0.0)]

  /** All game state of the older client. */
  class LegacyState {
    var startTime: real
    var paused: bool
    const player: LegacyPlayer
    var pendingCommands: seq<Command>
    var pendingChunkUpdates: seq<Chunk>
    var showHUD: bool
    var objects: map<string, LegacyObj>
    const world: World
    const socket: Socket<LegacyMsg>
    var config: Option<string>
    var error: Option<string>

    /** The state literal: paused, not started, nothing pending, no objects, an empty world. */
    constructor(player: LegacyPlayer, socket: Socket<LegacyMsg>)
      ensures startTime == 0.0 && paused && this.player == player
      ensures pendingCommands == [] && pendingChunkUpdates == [] && showHUD && objects == map[]
      ensures fresh(world) && world.Valid() && world.chunks == []
      ensures this.socket == socket && config == None && error == None
    {
      startTime, paused, this.player := 0.0, true, player;
      pendingCommands, pendingChunkUpdates, showHUD, objects := [], [], true, map[];
      world := new World();
      this.socket := socket;
      config, error := None, None;
    }
  }
}
