/**
 * Game objects shared by server and client: players, falling blocks and missiles
 * (the classes under src/protocol/obj) and the small enumerations of src/types.ts.
 */
module Objects {
  import opened Wrappers
  import opened Chunks

  /** A point or velocity `{x, y, z}`; numbers are modelled as reals. */
  datatype Vec = Vec(x: real, y: real, z: real)

  const ZERO: Vec := Vec(0.0, 0.0, 0.0)

  /** A looking direction `{azimuth, altitude}` in radians. */
  datatype Dir = Dir(azimuth: real, altitude: real)

  /** `ObjSituation` (src/types.ts). */
  datatype ObjSituation = OnGround | Airborne | InGround

  /** `GameStatus` (src/types.ts). */
  datatype GameStatus = Lobby | Active | Completed

  /** `PlayerMode` (src/types.ts). */
  datatype PlayerMode = Bazooka | Commando

  /** `ObjType`: the three kinds the game knows, or any other tag arriving over the wire. */
  datatype ObjType = PlayerType | FallingBlockType | MissileType | OtherType(tag: string)

  /** The six movement flags a client reports (`player.input`). */
  datatype Input = Input(forward: bool, back: bool, left: bool, right: bool, sprint: bool, jump: bool)

  /** A command a client sends in an update (`GameCmd` and `GameCmdSetVox` of src/types.ts). */
  datatype Command = SetVoxCmd(x: int, y: int, z: int, v: int) | FireBazookaCmd | UnknownCmd(tag: string)
  {
    /** The point a `set` command writes. */
    function At(): Coord
      requires SetVoxCmd?
    {
      Coord(x, y, z)
    }
  }

  /** The chunk origins that the `set` commands of a list write into. */
  function SetOrigins(cmds: seq<Command>): (r: set<Coord>)
    ensures forall i :: 0 <= i < |cmds| && cmds[i].SetVoxCmd? ==> OriginOf(cmds[i].At()) in r
    ensures forall o :: o in r ==> exists i :: 0 <= i < |cmds| && cmds[i].SetVoxCmd? && OriginOf(cmds[i].At()) == o
  {
    if cmds == [] then {}
    else
      var init, last := cmds[..|cmds| - 1], cmds[|cmds| - 1];
      SetOrigins(init) + (if last.SetVoxCmd? then {OriginOf(last.At())} else {})
  }

  /**
   * The value the last `set` command of a list at point `q` writes, if there is
   * one: running the commands in order, it is the one that stays.
   */
  function LastSet(cmds: seq<Command>, q: Coord): (r: Option<int>)
    ensures r.None? <==> forall i :: 0 <= i < |cmds| && cmds[i].SetVoxCmd? ==> cmds[i].At() != q
    ensures r.Some? ==> OriginOf(q) in SetOrigins(cmds)
  {
    if cmds == [] then None
    else
      var init, last := cmds[..|cmds| - 1], cmds[|cmds| - 1];
      if last.SetVoxCmd? && last.At() == q then Some(last.v) else LastSet(init, q)
  }

  /** `LastSet` is the value of a `set` command at `q` with no later `set` at `q`. */
  lemma {:induction false} LastSetIsLast(cmds: seq<Command>, q: Coord) returns (i: nat)
    requires LastSet(cmds, q).Some?
    ensures i < |cmds| && cmds[i] == SetVoxCmd(q.x, q.y, q.z, LastSet(cmds, q).value)
    ensures forall j :: i < j < |cmds| ==> !(cmds[j].SetVoxCmd? && cmds[j].At() == q)
  {
    var init, last := cmds[..|cmds| - 1], cmds[|cmds| - 1];
    if last.SetVoxCmd? && last.At() == q {
      i := |cmds| - 1;
    } else {
      i := LastSetIsLast(init, q);
      assert cmds[i] == init[i];
      forall j | i < j < |cmds|
        ensures !(cmds[j].SetVoxCmd? && cmds[j].At() == q)
      {
        if j < |init| {
          assert cmds[j] == init[j];
        }
      }
    }
  }

  /** One more command: the written origins take one step of their definition. */
  lemma SetOriginsStep(cmds: seq<Command>, n: nat)
    requires n < |cmds|
    ensures SetOrigins(cmds[..n + 1]) == SetOrigins(cmds[..n]) + (if cmds[n].SetVoxCmd? then {OriginOf(cmds[n].At())} else {})
  {
    assert cmds[..n + 1][..n] == cmds[..n];
  }

  /** One more command: the last value written at `q` takes one step of its definition. */
  lemma LastSetStep(cmds: seq<Command>, n: nat, q: Coord)
    requires n < |cmds|
    ensures LastSet(cmds[..n + 1], q) == if cmds[n].SetVoxCmd? && cmds[n].At() == q then Some(cmds[n].v) else LastSet(cmds[..n], q)
  {
    assert cmds[..n + 1][..n] == cmds[..n];
  }

  /**
   * A game object as it arrives in JSON: the common fields are always there, the
   * kind-specific ones only when the sender had them.
   */
  datatype ObjData = ObjData(
    objType: ObjType,
    key: string,
    location: Vec,
    velocity: Vec,
    lastUpdateMs: real,
    name: Option<string>,
    direction: Option<Dir>,
    situation: Option<ObjSituation>,
    mode: Option<PlayerMode>,
    rotTheta: Option<real>,
    rotVel: Option<real>,
    typeIndex: Option<int>,
    health: Option<real>,
    input: Option<Input>)

  /** Every field of a `GameObj` except `isDirty`: what the constructors and `Object.assign` set. */
  datatype Fields = Fields(
    objType: ObjType,
    key: string,
    location: Vec,
    velocity: Vec,
    lastUpdateMs: real,
    name: string,
    direction: Dir,
    situation: Option<ObjSituation>,
    mode: PlayerMode,
    rotTheta: real,
    rotVel: real,
    typeIndex: int,
    health: Option<real>,
    input: Option<Input>)

  function FieldsOf(o: GameObj): Fields
    reads o
  {
    Fields(o.objType, o.key, o.location, o.velocity, o.lastUpdateMs, o.name, o.direction, o.situation, o.mode,
           o.rotTheta, o.rotVel, o.typeIndex, o.health, o.input)
  }

  /** `Object.assign` on the fields alone: the common fields and every present field of `d` win. */
  function Assigned(f: Fields, d: ObjData): Fields {
    Fields(d.objType, d.key, d.location, d.velocity, d.lastUpdateMs,
           if d.name.Some? then d.name.value else f.name,
           if d.direction.Some? then d.direction.value else f.direction,
           if d.situation.Some? then d.situation else f.situation,
           if d.mode.Some? then d.mode.value else f.mode,
           if d.rotTheta.Some? then d.rotTheta.value else f.rotTheta,
           if d.rotVel.Some? then d.rotVel.value else f.rotVel,
           if d.typeIndex.Some? then d.typeIndex.value else f.typeIndex,
           if d.health.Some? then d.health else f.health,
           if d.input.Some? then d.input else f.input)
  }

  /**
   * `GameObj` with the fields of its subclasses `PlayerObj`, `FallingBlockObj` and
   * `MissileObj`.  A field a subclass does not set starts at its neutral value
   * (`""`, zero, `None`), which reads the same as `undefined` wherever the code tests it.
   */
  class GameObj {
    var objType: ObjType
    var key: string
    var location: Vec
    var velocity: Vec
    var lastUpdateMs: real
    var isDirty: bool
    // Player
    var name: string
    var direction: Dir
    var situation: Option<ObjSituation>
    var mode: PlayerMode
    /** Never declared by a class; only an update merged into the object can carry it. */
    var health: Option<real>
    // Falling block
    var rotTheta: real
    var rotVel: real
    var typeIndex: int
    /** The movement flags; no class declares them, a client sets them on its own player. */
    var input: Option<Input>

    /** `new GameObj(key, type)`: at the origin, at rest, dirty, never updated. */
    constructor(key: string, objType: ObjType)
      ensures this.key == key && this.objType == objType
      ensures location == ZERO && velocity == ZERO && lastUpdateMs == 0.0 && isDirty
      ensures name == "" && direction == Dir(0.0, 0.0) && situation == None && mode == Bazooka && health == None
      ensures rotTheta == 0.0 && rotVel == 0.0 && typeIndex == 0 && input == None
    {
      this.key := key;
      this.objType := objType;
      location, velocity := ZERO, ZERO;
      lastUpdateMs, isDirty := 0.0, true;
      name, direction, situation, mode := "", Dir(0.0, 0.0), None, Bazooka;
      health := None;
      rotTheta, rotVel, typeIndex := 0.0, 0.0, 0;
      input := None;
    }

    /**
     * `new PlayerObj(key, name)`: BAZOOKA mode, AIRBORNE, facing azimuth and altitude 0.
     * The name argument is dropped: the name starts empty.
     */
    constructor Player(key: string, name: string)
      ensures this.key == key && objType == PlayerType
      ensures location == ZERO && velocity == ZERO && lastUpdateMs == 0.0 && isDirty
      ensures this.name == "" && mode == Bazooka && situation == Some(Airborne)
      ensures direction == Dir(0.0, 0.0) && health == None && input == None
      ensures rotTheta == 0.0 && rotVel == 0.0 && typeIndex == 0
    {
      this.key := key;
      objType := PlayerType;
      location, velocity := ZERO, ZERO;
      lastUpdateMs, isDirty := 0.0, true;
      this.name, direction, situation, mode := "", Dir(0.0, 0.0), Some(Airborne), Bazooka;
      health := None;
      rotTheta, rotVel, typeIndex := 0.0, 0.0, 0;
      input := None;
    }

    /** `new FallingBlockObj(key)`: not spinning, type index 0. */
    constructor FallingBlock(key: string)
      ensures this.key == key && objType == FallingBlockType
      ensures location == ZERO && velocity == ZERO && lastUpdateMs == 0.0 && isDirty
      ensures rotTheta == 0.0 && rotVel == 0.0 && typeIndex == 0 && situation == None
      ensures name == "" && direction == Dir(0.0, 0.0) && mode == Bazooka && health == None && input == None
    {
      this.key := key;
      objType := FallingBlockType;
      location, velocity := ZERO, ZERO;
      lastUpdateMs, isDirty := 0.0, true;
      name, direction, situation, mode := "", Dir(0.0, 0.0), None, Bazooka;
      health := None;
      rotTheta, rotVel, typeIndex := 0.0, 0.0, 0;
      input := None;
    }

    /** `new MissileObj(key)`: a bare object of type MISSILE. */
    constructor Missile(key: string)
      ensures this.key == key && objType == MissileType
      ensures location == ZERO && velocity == ZERO && lastUpdateMs == 0.0 && isDirty
      ensures name == "" && direction == Dir(0.0, 0.0) && situation == None && mode == Bazooka && health == None
      ensures rotTheta == 0.0 && rotVel == 0.0 && typeIndex == 0 && input == None
    {
      this.key := key;
      objType := MissileType;
      location, velocity := ZERO, ZERO;
      lastUpdateMs, isDirty := 0.0, true;
      name, direction, situation, mode := "", Dir(0.0, 0.0), None, Bazooka;
      health := None;
      rotTheta, rotVel, typeIndex := 0.0, 0.0, 0;
      input := None;
    }

    /**
     * `Object.assign(obj, data)`: every field present in the data overwrites the
     * object's; absent ones are left alone.  The object keeps its identity.
     */
    method Assign(d: ObjData)
      modifies this`objType, this`key, this`location, this`velocity, this`lastUpdateMs
      modifies this`name, this`direction, this`situation, this`mode, this`rotTheta, this`rotVel, this`typeIndex,
        this`health, this`input
      ensures objType == d.objType && key == d.key && location == d.location && velocity == d.velocity
      ensures lastUpdateMs == d.lastUpdateMs
      ensures name == (if d.name.Some? then d.name.value else old(name))
      ensures direction == (if d.direction.Some? then d.direction.value else old(direction))
      ensures situation == (if d.situation.Some? then d.situation else old(situation))
      ensures mode == (if d.mode.Some? then d.mode.value else old(mode))
      ensures rotTheta == (if d.rotTheta.Some? then d.rotTheta.value else old(rotTheta))
      ensures rotVel == (if d.rotVel.Some? then d.rotVel.value else old(rotVel))
      ensures typeIndex == (if d.typeIndex.Some? then d.typeIndex.value else old(typeIndex))
      ensures health == (if d.health.Some? then d.health else old(health))
      ensures input == (if d.input.Some? then d.input else old(input))
      ensures FieldsOf(this) == Assigned(old(FieldsOf(this)), d)
    {
      AssignCommon(d);
      AssignPresent(d);
    }

    /** The fields every object on the wire carries. */
    method AssignCommon(d: ObjData)
      modifies this`objType, this`key, this`location, this`velocity, this`lastUpdateMs
      ensures objType == d.objType && key == d.key && location == d.location && velocity == d.velocity
      ensures lastUpdateMs == d.lastUpdateMs
    {
      objType, key, location, velocity, lastUpdateMs := d.objType, d.key, d.location, d.velocity, d.lastUpdateMs;
    }

    /** The kind-specific fields, each copied only when present. */
    method AssignPresent(d: ObjData)
      modifies this`name, this`direction, this`situation, this`mode, this`rotTheta, this`rotVel, this`typeIndex,
        this`health, this`input
      ensures name == (if d.name.Some? then d.name.value else old(name))
      ensures direction == (if d.direction.Some? then d.direction.value else old(direction))
      ensures situation == (if d.situation.Some? then d.situation else old(situation))
      ensures mode == (if d.mode.Some? then d.mode.value else old(mode))
      ensures rotTheta == (if d.rotTheta.Some? then d.rotTheta.value else old(rotTheta))
      ensures rotVel == (if d.rotVel.Some? then d.rotVel.value else old(rotVel))
      ensures typeIndex == (if d.typeIndex.Some? then d.typeIndex.value else old(typeIndex))
      ensures health == (if d.health.Some? then d.health else old(health))
      ensures input == (if d.input.Some? then d.input else old(input))
    {
      AssignPlayer(d);
      AssignBlock(d);
      if d.health.Some? {
        health := d.health;
      }
      if d.input.Some? {
        input := d.input;
      }
    }

    /** The player's fields, each copied only when present. */
    method AssignPlayer(d: ObjData)
      modifies this`name, this`direction, this`situation, this`mode
      ensures name == (if d.name.Some? then d.name.value else old(name))
      ensures direction == (if d.direction.Some? then d.direction.value else old(direction))
      ensures situation == (if d.situation.Some? then d.situation else old(situation))
      ensures mode == (if d.mode.Some? then d.mode.value else old(mode))
    {
      if d.name.Some? {
        name := d.name.value;
      }
      if d.direction.Some? {
        direction := d.direction.value;
      }
      if d.situation.Some? {
        situation := d.situation;
      }
      if d.mode.Some? {
        mode := d.mode.value;
      }
    }

    /** The falling block's fields, each copied only when present. */
    method AssignBlock(d: ObjData)
      modifies this`rotTheta, this`rotVel, this`typeIndex
      ensures rotTheta == (if d.rotTheta.Some? then d.rotTheta.value else old(rotTheta))
      ensures rotVel == (if d.rotVel.Some? then d.rotVel.value else old(rotVel))
      ensures typeIndex == (if d.typeIndex.Some? then d.typeIndex.value else old(typeIndex))
    {
      if d.rotTheta.Some? {
        rotTheta := d.rotTheta.value;
      }
      if d.rotVel.Some? {
        rotVel := d.rotVel.value;
      }
      if d.typeIndex.Some? {
        typeIndex := d.typeIndex.value;
      }
    }
  }

  /** `health > 0`, where an absent health compares false. */
  predicate Alive(health: Option<real>) {
    health.Some? && health.value > 0.0
  }
}
